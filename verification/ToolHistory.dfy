// What every run of the tool factory keeps, and what a rollback goes back to.
module ToolHistory {
  import opened Wrappers
  import opened ToolLifecycle

  function Last<T>(s: seq<T>): T
    requires s != []
  {
    s[|s| - 1]
  }

  predicate DistinctNames(versions: seq<Version>) {
    forall i, j | 0 <= i < j < |versions| :: versions[i].name != versions[j].name
  }

  predicate AtMostOneActive(versions: seq<Version>) {
    forall i, j | 0 <= i < j < |versions| :: !(versions[i].active && versions[j].active)
  }

  predicate VersionsGood(rules: Rules, versions: seq<Version>) {
    && (forall i | 0 <= i < |versions| :: rules.valid(versions[i].body))
    && |versions| <= MAX_VERSIONS_PER_TOOL
    && DistinctNames(versions)
    && AtMostOneActive(versions)
  }

  predicate StatusGood(tool: Tool) {
    && tool.status != Draft
    && (tool.status == Active ==> tool.enabled && HasActive(tool.versions))
    && (tool.status == Disabled ==> !tool.enabled && HasActive(tool.versions))
  }

  // The newest switch on record is to the active version.
  predicate HistoryGood(versions: seq<Version>, log: seq<Activation>) {
    var names := Switches(log);
    && (names != [] <==> HasActive(versions))
    && (names != [] ==> Last(names) == ActiveName(versions))
    && (forall n | n in names :: HasVersion(versions, n))
  }

  // The invariant of one tool.
  predicate Good(rules: Rules, tool: Tool) {
    && rules.valid(tool.body)
    && StatusGood(tool)
    && VersionsGood(rules, tool.versions)
    && HistoryGood(tool.versions, tool.log)
  }

  lemma {:induction false} OneActive(versions: seq<Version>, i: nat)
    requires i < |versions| && versions[i].active && AtMostOneActive(versions)
    ensures HasActive(versions) && ActiveName(versions) == versions[i].name
  {
    if !versions[0].active {
      var rest := versions[1..];
      assert rest[i - 1] == versions[i];
      assert AtMostOneActive(rest) by {
        forall a, b | 0 <= a < b < |rest| ensures !(rest[a].active && rest[b].active) {
          assert rest[a] == versions[a + 1] && rest[b] == versions[b + 1];
        }
      }
      OneActive(rest, i - 1);
    }
  }

  lemma SameNames(earlier: seq<Version>, later: seq<Version>)
    requires |earlier| <= |later| && forall i | 0 <= i < |earlier| :: later[i].name == earlier[i].name
    ensures forall n | HasVersion(earlier, n) :: HasVersion(later, n)
  {
    forall n | HasVersion(earlier, n) ensures HasVersion(later, n) {
      var i :| 0 <= i < |earlier| && earlier[i].name == n;
      assert later[i].name == n;
    }
  }

  lemma SetActiveGood(rules: Rules, versions: seq<Version>, name: string)
    requires VersionsGood(rules, versions) && HasVersion(versions, name)
    ensures var r := SetActive(versions, name);
      && VersionsGood(rules, r) && HasActive(r) && ActiveName(r) == name
      && forall n | HasVersion(versions, n) :: HasVersion(r, n)
  {
    var r := SetActive(versions, name);
    var i :| 0 <= i < |versions| && versions[i].name == name;
    assert r[i].active;
    OneActive(r, i);
    SameNames(versions, r);
  }

  lemma {:induction false} SnapshotKeepsActive(versions: seq<Version>, v: Version)
    requires !v.active
    ensures HasActive(versions + [v]) == HasActive(versions)
    ensures HasActive(versions) ==> ActiveName(versions + [v]) == ActiveName(versions)
  {
    var r := versions + [v];
    if versions != [] {
      var rest := versions[1..];
      assert r[1..] == rest + [v];
      SnapshotKeepsActive(rest, v);
      HasActiveTail(versions);
      HasActiveTail(r);
    }
  }

  lemma HasActiveTail(versions: seq<Version>)
    requires versions != []
    ensures HasActive(versions) <==> versions[0].active || HasActive(versions[1..])
  {
    var rest := versions[1..];
    if i :| 0 <= i < |versions| && versions[i].active {
      if i > 0 { assert rest[i - 1].active; }
    }
    if i :| 0 <= i < |rest| && rest[i].active {
      assert versions[i + 1].active;
    }
  }

  lemma ActivateGood(rules: Rules, tool: Tool, version: string)
    requires Good(rules, tool) && DoActivate(tool, version).error.None?
    ensures var t := DoActivate(tool, version).tool.value;
      && Good(rules, t) && t.status == Active && t.version == version
      && HasActive(t.versions) && ActiveName(t.versions) == version
      && Switches(t.log) == Switches(tool.log) + [version]
  {
    var t := DoActivate(tool, version).tool.value;
    SetActiveGood(rules, tool.versions, version);
    assert t.log == tool.log + [t.log[|tool.log|]];
  }

  lemma SnapshotGood(rules: Rules, tool: Tool)
    requires rules.valid(tool.body) && StatusGood(tool)
    requires VersionsGood(rules, tool.versions) && HistoryGood(tool.versions, tool.log)
    requires !HasVersion(tool.versions, tool.version)
    ensures Good(rules, Snapshot(tool).tool.value)
  {
    if |tool.versions| < MAX_VERSIONS_PER_TOOL {
      var versions := Snapshot(tool).tool.value.versions;
      SnapshotKeepsActive(tool.versions, versions[|tool.versions|]);
      SameNames(tool.versions, versions);
      forall i, j | 0 <= i < j < |versions| ensures versions[i].name != versions[j].name {
        assert HasVersion(tool.versions, versions[i].name) by { assert tool.versions[i] == versions[i]; }
      }
    }
  }

  // Every step of every command keeps the invariant, failing steps included.
  lemma StepKeepsGood(rules: Rules, order: Order, tool: Option<Tool>, c: Command)
    requires tool.Some? ==> Good(rules, tool.value)
    ensures var o := Step(rules, order, tool, c); o.tool.Some? ==> Good(rules, o.tool.value)
  {
    if tool.None? {
      if c.Create? && rules.valid(c.body) {
        SnapshotGood(rules, Tool(c.body, c.version, Validated, false, [], []));
      }
    } else {
      var t := tool.value;
      match c {
        case Create(_, _) =>
        case Approve =>
        case Reject =>
        case CreateVersion(body, version) =>
          if rules.semantic(version) && rules.valid(body) && !HasVersion(t.versions, version) {
            SnapshotGood(rules, t.(body := body, version := version));
          }
        case Activate(version) =>
          if DoActivate(t, version).error.None? { ActivateGood(rules, t, version); }
        case Deactivate => DeactivateKeepsGood(rules, t);
        case Rollback => RollbackKeepsGood(rules, t, order);
        case SetEnabled(_) =>
      }
    }
  }

  lemma DeactivateKeepsGood(rules: Rules, tool: Tool)
    requires Good(rules, tool)
    ensures Good(rules, DoDeactivate(tool).tool.value)
  {
    if HasActive(tool.versions) {
      var name := ActiveName(tool.versions);
    }
  }

  lemma RollbackKeepsGood(rules: Rules, tool: Tool, order: Order)
    requires Good(rules, tool)
    ensures Good(rules, DoRollback(tool, order).tool.value)
  {
    if DoRollback(tool, order).error.None? {
      var target := RollbackTarget(tool, order).value;
      RolledBackGood(rules, tool, target, ActiveOrEmpty(tool.versions));
      assert DoRollback(tool, order).tool.value == RolledBackTo(tool, target, ActiveOrEmpty(tool.versions));
    } else {
      assert DoRollback(tool, order).tool.value == tool;
    }
  }

  // The two records a rollback leaves: the activation and the rollback itself.
  function RolledBackTo(tool: Tool, target: string, current: string): Tool {
    var t := DoActivate(tool, target).tool.value;
    t.(log := t.log + [Activation(target, RolledBack, current)])
  }

  lemma RolledBackGood(rules: Rules, tool: Tool, target: string, current: string)
    requires Good(rules, tool) && DoActivate(tool, target).error.None?
    ensures var t := RolledBackTo(tool, target, current);
      && Good(rules, t) && t.status == Active
      && HasActive(t.versions) && ActiveName(t.versions) == target
      && Switches(t.log) == Switches(tool.log) + [target, target]
  {
    ActivateGood(rules, tool, target);
    RecordedGood(rules, DoActivate(tool, target).tool.value, Activation(target, RolledBack, current));
  }

  // Recording a rollback to the version that is active keeps the invariant.
  lemma RecordedGood(rules: Rules, tool: Tool, a: Activation)
    requires Good(rules, tool) && IsSwitch(a)
    requires HasActive(tool.versions) && ActiveName(tool.versions) == a.version && HasVersion(tool.versions, a.version)
    ensures Good(rules, tool.(log := tool.log + [a]))
    ensures Switches(tool.log + [a]) == Switches(tool.log) + [a.version]
  {
  }

  // The three execution gates (status, enabled flag, active version) come down to the first.
  predicate PassesGates(tool: Tool) {
    tool.status == Active && tool.enabled && HasActive(tool.versions)
  }

  lemma GatesAreStatusActive(rules: Rules, tool: Tool)
    requires Good(rules, tool)
    ensures PassesGates(tool) <==> tool.status == Active
  {
  }

  // ---- What a rollback goes back to ----

  // The newest name other than the current one.
  function LastOther(names: seq<string>, current: string): Option<string> {
    if names == [] then None
    else if Last(names) != current then Some(Last(names))
    else LastOther(names[..|names| - 1], current)
  }

  lemma {:induction false} LastOtherMeans(names: seq<string>, current: string)
    ensures var other := LastOther(names, current);
      match other
      case None => forall i | 0 <= i < |names| :: names[i] == current
      case Some(v) => v != current && exists i | 0 <= i < |names| :: names[i] == v && OnlyFrom(names, i + 1, current)
  {
    if names != [] {
      if Last(names) != current {
        assert names[|names| - 1] == Last(names) && OnlyFrom(names, |names|, current);
      } else {
        var init := names[..|names| - 1];
        LastOtherMeans(init, current);
        if LastOther(init, current).Some? {
          var i :| 0 <= i < |init| && init[i] == LastOther(init, current).value && OnlyFrom(init, i + 1, current);
          assert names[i] == init[i];
          assert OnlyFrom(names, i + 1, current) by {
            forall j | i + 1 <= j < |names| ensures names[j] == current {
              if j < |init| { assert names[j] == init[j]; }
            }
          }
        } else {
          forall i | 0 <= i < |names| ensures names[i] == current {
            if i < |init| { assert names[i] == init[i]; }
          }
        }
      }
    }
  }

  predicate OnlyFrom(names: seq<string>, from: nat, current: string) {
    forall j | from <= j < |names| :: names[j] == current
  }

  // The version that was in force just before the current one: the version of the newest
  // switch that is not to the current version.
  function VersionBefore(names: seq<string>): Option<string> {
    if names == [] then None else LastOther(names, Last(names))
  }

  predicate SwitchesAway(a: Activation, current: string) {
    IsSwitch(a) && a.version != current
  }

  // A switch to another version stands among the newest `limit` records.
  predicate OtherWithin(log: seq<Activation>, current: string, limit: nat) {
    exists i | 0 <= i < |log| :: |log| - i <= limit && SwitchesAway(log[i], current)
  }

  lemma OtherWithinInit(log: seq<Activation>, current: string, limit: nat)
    requires log != [] && limit > 0
    ensures OtherWithin(log, current, limit)
       <==> SwitchesAway(Last(log), current) || OtherWithin(log[..|log| - 1], current, limit - 1)
  {
    var init := log[..|log| - 1];
    if i :| 0 <= i < |log| && |log| - i <= limit && SwitchesAway(log[i], current) {
      if i < |init| { assert init[i] == log[i]; }
    }
    if i :| 0 <= i < |init| && |init| - i <= limit - 1 && SwitchesAway(init[i], current) {
      assert log[i] == init[i];
    }
    if SwitchesAway(Last(log), current) {
      assert log[|log| - 1] == Last(log);
    }
  }

  lemma {:induction false} NewestOther(log: seq<Activation>, current: string, limit: nat)
    ensures FirstOther(Listed(log, NewestFirst(limit)), current)
         == if OtherWithin(log, current, limit) then LastOther(Switches(log), current) else None
    ensures OtherWithin(log, current, limit) ==> LastOther(Switches(log), current).Some?
    decreases |log|
  {
    if log != [] && limit > 0 {
      var init := log[..|log| - 1];
      ListedInit(log, limit);
      OtherWithinInit(log, current, limit);
      NewestOther(init, current, limit - 1);
      var names := Switches(log);
      if IsSwitch(Last(log)) {
        assert names[..|names| - 1] == Switches(init) && Last(names) == Last(log).version;
      } else {
        assert names == Switches(init);
      }
    }
  }

  lemma ListedInit(log: seq<Activation>, limit: nat)
    requires log != [] && limit > 0
    ensures var listed := Listed(log, NewestFirst(limit));
      && listed != [] && listed[0] == Last(log)
      && listed[1..] == Listed(log[..|log| - 1], NewestFirst(limit - 1))
  {
    var r := Reverse(log[..|log| - 1]);
    assert ([Last(log)] + r)[1..] == r;
    if |r| + 1 > limit {
      assert ([Last(log)] + r)[..limit][1..] == r[..limit - 1];
    }
  }

  lemma {:induction false} FirstOtherMeans(listed: seq<Activation>, current: string)
    ensures var target := FirstOther(listed, current);
      match target
      case None => forall i | 0 <= i < |listed| :: !SwitchesAway(listed[i], current)
      case Some(v) => exists i | 0 <= i < |listed| ::
        SwitchesAway(listed[i], current) && listed[i].version == v && NoneAway(listed, i, current)
  {
    if listed != [] {
      if SwitchesAway(listed[0], current) {
        assert NoneAway(listed, 0, current);
      } else {
        var rest := listed[1..];
        FirstOtherMeans(rest, current);
        if FirstOther(rest, current).Some? {
          var i :| 0 <= i < |rest| && SwitchesAway(rest[i], current)
            && rest[i].version == FirstOther(rest, current).value && NoneAway(rest, i, current);
          assert listed[i + 1] == rest[i];
          forall j | 0 <= j < i + 1 ensures !SwitchesAway(listed[j], current) {
            if j > 0 { assert listed[j] == rest[j - 1]; }
          }
          assert NoneAway(listed, i + 1, current);
        } else {
          forall j | 0 <= j < |listed| ensures !SwitchesAway(listed[j], current) {
            if j > 0 { assert listed[j] == rest[j - 1]; }
          }
        }
      }
    }
  }

  predicate NoneAway(listed: seq<Activation>, upTo: nat, current: string) {
    forall j | 0 <= j < upTo && j < |listed| :: !SwitchesAway(listed[j], current)
  }

  // With the newest-first listing a rollback activates the version that was in force just
  // before the current one. It is refused exactly when that version's record lies beyond
  // the listing limit, when it has the empty name, or in a status that cannot be activated.
  lemma RollbackGoesBack(rules: Rules, tool: Tool, limit: nat)
    requires Good(rules, tool)
    ensures var o, before := DoRollback(tool, NewestFirst(limit)), VersionBefore(Switches(tool.log));
      && (o.error.None? <==>
            && HasActive(tool.versions)
            && OtherWithin(tool.log, ActiveName(tool.versions), limit)
            && before != Some("")
            && (tool.status == Approved || tool.status == Active || tool.status == Disabled))
      && (o.error.None? ==>
            && before.Some? && before.value != ActiveName(tool.versions)
            && o.tool == Some(RolledBackTo(tool, before.value, ActiveName(tool.versions)))
            && Good(rules, o.tool.value) && PassesGates(o.tool.value)
            && ActiveName(o.tool.value.versions) == before.value
            && Switches(o.tool.value.log) == Switches(tool.log) + [before.value, before.value])
      && (o.error.Some? ==> o.tool == Some(tool))
  {
    var current := ActiveOrEmpty(tool.versions);
    NewestOther(tool.log, current, limit);
    LastOtherMeans(Switches(tool.log), current);
    var target := FirstOther(Listed(tool.log, NewestFirst(limit)), current);
    if HasActive(tool.versions) {
      if target.Some? {
        assert target.value in Switches(tool.log);
        SomeSwitchListed(tool.log, limit, current);
        if DoActivate(tool, target.value).error.None? {
          RolledBackGood(rules, tool, target.value, current);
        }
      }
    }
  }

  lemma SomeSwitchListed(log: seq<Activation>, limit: nat, current: string)
    requires FirstOther(Listed(log, NewestFirst(limit)), current).Some?
    ensures var listed := Listed(log, NewestFirst(limit)); exists i | 0 <= i < |listed| :: IsSwitch(listed[i])
  {
    FirstOtherMeans(Listed(log, NewestFirst(limit)), current);
  }

  // A switch record stands among the newest `limit` ones.
  predicate SwitchWithin(log: seq<Activation>, limit: int) {
    exists i | 0 <= i < |log| :: |log| - i <= limit && IsSwitch(log[i])
  }

  // After records that only switch to one other version, the newest other record is the
  // newest switch of the log before them.
  lemma {:induction false} OtherBehind(log: seq<Activation>, current: string, limit: int)
    requires Switches(log) != [] && Last(Switches(log)) != current
    ensures limit >= 0 ==> (OtherWithin(log, current, limit) <==> SwitchWithin(log, limit))
    decreases |log|
  {
    if limit > 0 {
      var init := log[..|log| - 1];
      OtherWithinInit(log, current, limit);
      if IsSwitch(Last(log)) {
        assert log[|log| - 1] == Last(log);
      } else {
        OtherBehind(init, current, limit - 1);
        if i :| 0 <= i < |log| && |log| - i <= limit && IsSwitch(log[i]) {
          assert init[i] == log[i];
        }
        if i :| 0 <= i < |init| && |init| - i <= limit - 1 && IsSwitch(init[i]) {
          assert log[i] == init[i];
        }
      }
    }
  }

  lemma OtherAfterSwitch(log: seq<Activation>, a: Activation, limit: nat)
    requires IsSwitch(a)
    ensures OtherWithin(log + [a], a.version, limit) <==> limit > 0 && OtherWithin(log, a.version, limit - 1)
  {
    if limit > 0 {
      OtherWithinInit(log + [a], a.version, limit);
      assert (log + [a])[..|log|] == log;
    }
  }

  // Activating w over v and rolling back restores v, whenever v's own switch is among the
  // newest limit - 1 records (and v is not the empty name).
  lemma {:induction false} RollbackUndoesActivate(rules: Rules, tool: Tool, w: string, limit: nat)
    requires Good(rules, tool) && HasActive(tool.versions) && ActiveName(tool.versions) != w
    requires DoActivate(tool, w).error.None?
    ensures var v, o := ActiveName(tool.versions), DoRollback(DoActivate(tool, w).tool.value, NewestFirst(limit));
      && (o.error.None? <==> v != "" && SwitchWithin(tool.log, limit - 1))
      && (o.error.None? ==> PassesGates(o.tool.value) && ActiveName(o.tool.value.versions) == v)
  {
    ActivateGood(rules, tool, w);
    var t := DoActivate(tool, w).tool.value;
    OtherAfterSwitch(tool.log, t.log[|tool.log|], limit);
    OtherBehind(tool.log, w, limit - 1);
    BehindOne(Switches(tool.log), w);
    RollbackGoesBack(rules, t, limit);
  }

  // Rolling back twice restores the version active at the start.
  lemma RollbackTwice(rules: Rules, tool: Tool, limit: nat)
    requires Good(rules, tool) && HasActive(tool.versions)
    requires DoRollback(tool, NewestFirst(limit)).error.None?
    ensures var v := ActiveName(tool.versions);
      var o := DoRollback(DoRollback(tool, NewestFirst(limit)).tool.value, NewestFirst(limit));
      && (o.error.None? <==> v != "" && SwitchWithin(tool.log, limit - 2))
      && (o.error.None? ==> PassesGates(o.tool.value) && ActiveName(o.tool.value.versions) == v)
  {
    RollbackGoesBack(rules, tool, limit);
    var target := VersionBefore(Switches(tool.log)).value;
    var t := DoRollback(tool, NewestFirst(limit)).tool.value;
    var first, second := t.log[|tool.log|], t.log[|tool.log| + 1];
    assert t.log == (tool.log + [first]) + [second];
    OtherAfterSwitch(tool.log + [first], second, limit);
    if limit > 0 { OtherAfterSwitch(tool.log, first, limit - 1); }
    OtherBehind(tool.log, target, limit - 2);
    BehindTwo(Switches(tool.log), target);
    RollbackGoesBack(rules, t, limit);
  }

  lemma BehindOne(names: seq<string>, target: string)
    requires names != [] && Last(names) != target
    ensures VersionBefore(names + [target]) == Some(Last(names))
  {
    var one := names + [target];
    assert one[..|one| - 1] == names && Last(one) == target;
    assert LastOther(one, target) == LastOther(names, target);
  }

  lemma BehindTwo(names: seq<string>, target: string)
    requires names != [] && Last(names) != target
    ensures VersionBefore(names + [target, target]) == Some(Last(names))
  {
    var one, two := names + [target], names + [target, target];
    BehindOne(names, target);
    assert two[..|two| - 1] == one;
    assert LastOther(two, target) == LastOther(one, target);
  }

  // Every switch up to the first one to v was to w.
  predicate EarliestBeside(log: seq<Activation>, v: string, w: string) {
    exists i | 0 <= i < |log| :: IsSwitch(log[i]) && log[i].version == v && NoneAway(log, i, w)
  }

  // A rollback that is accepted and makes v the active version.
  predicate Restores(o: Outcome, v: string) {
    o.error.None? && o.tool.Some? && HasActive(o.tool.value.versions) && ActiveName(o.tool.value.versions) == v
  }

  // The in-memory listing is oldest first, so a rollback after activating w goes back to
  // the version activated earliest, not latest: it restores v exactly when every switch
  // before the first one to v was to w.
  lemma InsertionOrderRollback(rules: Rules, tool: Tool, w: string)
    requires Good(rules, tool) && HasActive(tool.versions) && ActiveName(tool.versions) != w
    requires DoActivate(tool, w).error.None?
    ensures var v, t := ActiveName(tool.versions), DoActivate(tool, w).tool.value;
      Restores(DoRollback(t, InsertionOrder), v) <==> v != "" && EarliestBeside(tool.log, v, w)
  {
    ActivateGood(rules, tool, w);
    var v, t := ActiveName(tool.versions), DoActivate(tool, w).tool.value;
    EarliestTarget(tool.log, t.log[|tool.log|], v, w);
    SetActiveGood(rules, tool.versions, w);
    RestoresIff(rules, t, InsertionOrder, v);
  }

  // A rollback of an active tool restores v exactly when it picks v.
  lemma RestoresIff(rules: Rules, t: Tool, order: Order, v: string)
    requires Good(rules, t) && t.status == Active && HasVersion(t.versions, v)
    ensures Restores(DoRollback(t, order), v) <==> RollbackTarget(t, order) == Some(v)
  {
    var o, target := DoRollback(t, order), RollbackTarget(t, order);
    FirstOtherMeans(Listed(t.log, order), ActiveOrEmpty(t.versions));
    if o.error.None? || target == Some(v) {
      RolledBackGood(rules, t, target.value, ActiveOrEmpty(t.versions));
    }
  }

  lemma EarliestTarget(log: seq<Activation>, a: Activation, v: string, w: string)
    requires v != w && a.version == w
    ensures FirstOther(log + [a], w) == Some(v) <==> EarliestBeside(log, v, w)
  {
    var whole := log + [a];
    FirstOtherMeans(whole, w);
    if FirstOther(whole, w) == Some(v) {
      var k :| 0 <= k < |whole| && SwitchesAway(whole[k], w) && whole[k].version == v && NoneAway(whole, k, w);
      assert whole[k] == log[k];
      assert NoneAway(log, k, w) by {
        assert forall j | 0 <= j < k :: log[j] == whole[j];
      }
    }
    if EarliestBeside(log, v, w) {
      var i :| 0 <= i < |log| && IsSwitch(log[i]) && log[i].version == v && NoneAway(log, i, w);
      assert SwitchesAway(whole[i], w);
      assert forall j | 0 <= j < |log| :: whole[j] == log[j];
      var k :| 0 <= k < |whole| && SwitchesAway(whole[k], w) && whole[k].version == FirstOther(whole, w).value
        && NoneAway(whole, k, w);
    }
  }

  lemma ThreeSwitches(x: Activation, y: Activation, z: Activation)
    requires IsSwitch(x) && IsSwitch(y) && IsSwitch(z)
    ensures Switches([x, y, z]) == [x.version, y.version, z.version]
  {
    assert Switches([x]) == [x.version] by {
      assert [] + [x] == [x];
    }
    assert Switches([x, y]) == [x.version, y.version] by {
      assert [x] + [y] == [x, y];
    }
    assert [x, y] + [z] == [x, y, z];
  }

  // Three versions activated in turn: newest first goes back to the second one, insertion
  // order to the first.
  lemma ThreeVersionsInsertionOrder(a: string, b: string, c: string)
    requires a != b && b != c && a != c
    ensures var log := [Activation(a, Activated, ""), Activation(b, Activated, a), Activation(c, Activated, b)];
      && Switches(log) == [a, b, c]
      && FirstOther(Listed(log, InsertionOrder), c) == Some(a)
      && FirstOther(Listed(log, NewestFirst(100)), c) == Some(b)
  {
    var x, y, z := Activation(a, Activated, ""), Activation(b, Activated, a), Activation(c, Activated, b);
    ThreeSwitches(x, y, z);
    assert [z, y, x][1..] == [y, x];
  }
}
