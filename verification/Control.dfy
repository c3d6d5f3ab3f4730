// The action flow of app/control/controller.py (plan, approve, execute, verify, roll back)
// with the approval rules of permissions.py, the retry loop of verification.py and the
// rollback plans of rollback.py. Users, commands and health checks are oracles.
module Control {

  const MAX_ACTIONS_PER_RUN := 3
  const MAX_ATTEMPTS := 3

  datatype ActionType = StartContainer | StopContainer | RestartContainer | RestartService | OtherAction(name: string)

  datatype Risk = Low | Medium | High | Critical

  datatype Planned = Planned(action: ActionType, target: string)

  datatype Decision = AutoApproved | Blocked | Pending

  datatype Status = Success | Failed | Degraded | Unknown

  datatype Outcome = Undecided | Succeeded | ActionFailed | RolledBack | Refused

  // What happens to the outside world and to the user, in order; numbers are plan entries.
  datatype Event =
    | Asked(entry: nat, yes: bool)
    | Ran(entry: nat, ok: bool)
    | Verified(entry: nat, status: Status)
    | RollbackRan(entry: nat, ok: bool)
    | Reverified(entry: nat, status: Status)

  // The oracles: the risk and the user's answer for an entry, whether its command can be
  // built and succeeds, each health check of each attempt (before and after a rollback),
  // and whether the rollback command succeeds.
  datatype World = World(
    risk: nat -> Risk,
    approve: nat -> bool,
    builds: Planned -> bool,
    run: nat -> bool,
    check: (bool, nat, nat, nat) -> bool,
    rollbackRun: nat -> bool)

  // ---- Approval (permissions.py) ----

  // The actions that write; they are also the only ones that can be executed.
  predicate IsWrite(a: ActionType) {
    !a.OtherAction?
  }

  function EvaluateApproval(a: ActionType, risk: Risk): Decision {
    if IsWrite(a) then Pending
    else match risk
      case Low => AutoApproved
      case Medium => Pending
      case High => Pending
      case Critical => Blocked
  }

  // ---- Verification (verification.py) ----

  // The number of checks of an action's verification strategy.
  function Checks(a: ActionType): nat {
    match a
    case RestartContainer => 3
    case RestartService => 1
    case _ => 0
  }

  predicate AllPass(w: World, again: bool, entry: nat, attempt: nat, n: nat) {
    forall k | 0 <= k < n :: w.check(again, entry, attempt, k)
  }

  predicate AnyPass(w: World, again: bool, entry: nat, attempt: nat, n: nat) {
    exists k | 0 <= k < n :: w.check(again, entry, attempt, k)
  }

  // Verified by the first attempt that passes every check; otherwise the last attempt says
  // whether the component is degraded or down.
  function VerifyStatus(w: World, again: bool, entry: nat, a: ActionType, maxAttempts: nat): Status {
    var n := Checks(a);
    if n == 0 then Unknown
    else if exists t | 1 <= t <= maxAttempts :: AllPass(w, again, entry, t, n) then Success
    else if maxAttempts >= 1 && AnyPass(w, again, entry, maxAttempts, n) then Degraded
    else Failed
  }

  method VerifyAction(w: World, again: bool, entry: nat, a: ActionType, maxAttempts: nat)
    returns (status: Status, attempts: nat)
    ensures status == VerifyStatus(w, again, entry, a, maxAttempts)
    ensures attempts <= maxAttempts
    ensures status == Success ==>
      && attempts >= 1 && AllPass(w, again, entry, attempts, Checks(a))
      && forall t | 1 <= t < attempts :: !AllPass(w, again, entry, t, Checks(a))
  {
    var n := Checks(a);
    attempts := 0;
    if n == 0 {
      return Unknown, 0;
    }
    for attempt := 1 to maxAttempts + 1
      invariant attempts == attempt - 1
      invariant forall t | 1 <= t < attempt :: !AllPass(w, again, entry, t, n)
      invariant attempt <= maxAttempts || maxAttempts == 0
    {
      attempts := attempt;
      var allPassed, anyPassed := RunChecks(w, again, entry, attempt, n);
      if allPassed {
        return Success, attempts;
      }
      if attempt == maxAttempts {
        return if anyPassed then Degraded else Failed, attempts;
      }
    }
    return Failed, attempts;
  }

  // Every check of an attempt is run.
  method RunChecks(w: World, again: bool, entry: nat, attempt: nat, n: nat) returns (all: bool, any: bool)
    ensures all == AllPass(w, again, entry, attempt, n)
    ensures any == AnyPass(w, again, entry, attempt, n)
  {
    all, any := true, false;
    for k := 0 to n
      invariant all == AllPass(w, again, entry, attempt, k)
      invariant any == AnyPass(w, again, entry, attempt, k)
    {
      var passed := w.check(again, entry, attempt, k);
      all, any := all && passed, any || passed;
    }
  }

  // ---- Rollback (rollback.py) ----

  datatype RollbackPlan = RollbackPlan(available: bool, risk: Risk)

  function CreateRollbackPlan(a: ActionType): RollbackPlan {
    RollbackPlan(a.RestartContainer? || a.RestartService?, Low)
  }

  predicate IsRollbackSafe(p: RollbackPlan) {
    p.available && p.risk == Low
  }

  // ---- The flow ----

  // A command is only sent for an executable action whose command can be built.
  predicate Sends(w: World, p: Planned) {
    IsWrite(p.action) && w.builds(p)
  }

  predicate ExecutesWell(w: World, i: nat, p: Planned) {
    Sends(w, p) && w.run(i)
  }

  function Asking(w: World, i: nat, p: Planned): seq<Event> {
    if EvaluateApproval(p.action, w.risk(i)) == Pending then [Asked(i, w.approve(i))] else []
  }

  predicate Permitted(w: World, i: nat, p: Planned) {
    match EvaluateApproval(p.action, w.risk(i))
    case AutoApproved => true
    case Blocked => false
    case Pending => w.approve(i)
  }

  function Executing(w: World, i: nat, p: Planned): seq<Event> {
    if Sends(w, p) then [Ran(i, w.run(i))] else []
  }

  // After a verification that failed.
  function Recovering(w: World, i: nat, p: Planned): (seq<Event>, Outcome) {
    if !IsRollbackSafe(CreateRollbackPlan(p.action)) then ([], ActionFailed)
    else if !w.rollbackRun(i) then ([RollbackRan(i, false)], ActionFailed)
    else
      var status := VerifyStatus(w, true, i, p.action, MAX_ATTEMPTS);
      ([RollbackRan(i, true), Reverified(i, status)], if status == Success then RolledBack else ActionFailed)
  }

  function Verifying(w: World, i: nat, p: Planned): (seq<Event>, Outcome) {
    var status := VerifyStatus(w, false, i, p.action, MAX_ATTEMPTS);
    var first := [Verified(i, status)];
    match status
    case Success => (first, Succeeded)
    case Unknown => (first, Undecided)
    case _ => var (events, outcome) := Recovering(w, i, p); (first + events, outcome)
  }

  // One plan entry: its events, the outcome it sets, whether it counts as executed, and
  // whether the loop goes on after it.
  datatype Entry = Entry(events: seq<Event>, outcome: Outcome, executed: bool, goesOn: bool)

  function HandleEntry(w: World, i: nat, p: Planned, verify: bool): Entry {
    if !Permitted(w, i, p) then Entry(Asking(w, i, p), Refused, false, false)
    else
      var events := Asking(w, i, p) + Executing(w, i, p);
      if !ExecutesWell(w, i, p) then Entry(events, ActionFailed, true, false)
      else if verify then
        var (more, decided) := Verifying(w, i, p);
        Entry(events + more, decided, true, false)
      else Entry(events, Succeeded, true, true)
  }

  // The events, the outcome and the action count from plan entry i on.
  function Flow(w: World, plan: seq<Planned>, i: nat, count: nat, outcome: Outcome, verify: bool)
    : (seq<Event>, Outcome, nat)
    requires i <= |plan|
    decreases |plan| - i
  {
    if i == |plan| || count >= MAX_ACTIONS_PER_RUN then ([], outcome, count)
    else
      var e := HandleEntry(w, i, plan[i], verify);
      var total := if e.executed then count + 1 else count;
      if !e.goesOn then (e.events, e.outcome, total)
      else
        var (rest, last, n) := Flow(w, plan, i + 1, total, e.outcome, verify);
        (e.events + rest, last, n)
  }

  class ControlState {
    var actionCount: nat
    var outcome: Outcome
    ghost var events: seq<Event>

    constructor ()
      ensures actionCount == 0 && outcome == Undecided && events == []
    {
      actionCount, outcome, events := 0, Undecided, [];
    }
  }

  // _execute_action_flow
  method ExecuteActionFlow(s: ControlState, w: World, plan: seq<Planned>, verifyAfter: bool)
    modifies s
    ensures var (events, outcome, count) := Flow(w, plan, 0, old(s.actionCount), old(s.outcome), verifyAfter);
      s.events == old(s.events) + events && s.outcome == outcome && s.actionCount == count
  {
    ghost var all := Flow(w, plan, 0, s.actionCount, s.outcome, verifyAfter);
    for i := 0 to |plan|
      invariant var (events, outcome, count) := Flow(w, plan, i, s.actionCount, s.outcome, verifyAfter);
        s.events + events == old(s.events) + all.0 && outcome == all.1 && count == all.2
    {
      if s.actionCount >= MAX_ACTIONS_PER_RUN {
        break;
      }
      ghost var before := s.events;
      var goesOn := ExecuteEntry(s, w, i, plan[i], verifyAfter);
      if !goesOn {
        return;
      }
      ghost var rest := Flow(w, plan, i + 1, s.actionCount, s.outcome, verifyAfter).0;
      assert before + (HandleEntry(w, i, plan[i], verifyAfter).events + rest) == s.events + rest;
    }
    assert s.events + [] == s.events;
  }

  method ExecuteEntry(s: ControlState, w: World, i: nat, p: Planned, verifyAfter: bool) returns (goesOn: bool)
    modifies s
    ensures var e := HandleEntry(w, i, p, verifyAfter);
      && s.events == old(s.events) + e.events && s.outcome == e.outcome && goesOn == e.goesOn
      && s.actionCount == old(s.actionCount) + (if e.executed then 1 else 0)
  {
    var decision := EvaluateApproval(p.action, w.risk(i));
    if decision == Blocked {
      s.outcome := Refused;
      return false;
    }
    if decision == Pending {
      var approved := w.approve(i);
      s.events := s.events + [Asked(i, approved)];
      if !approved {
        s.outcome := Refused;
        return false;
      }
    }
    var ok := ExecuteAction(s, w, i, p);
    s.actionCount := s.actionCount + 1;
    if !ok {
      s.outcome := ActionFailed;
      return false;
    }
    if !verifyAfter {
      s.outcome := Succeeded;
      return true;
    }
    VerifyAndRecover(s, w, i, p);
    return false;
  }

  method ExecuteAction(s: ControlState, w: World, i: nat, p: Planned) returns (ok: bool)
    modifies s`events
    ensures s.events == old(s.events) + Executing(w, i, p) && ok == ExecutesWell(w, i, p)
  {
    if !IsWrite(p.action) {
      return false;
    }
    if !w.builds(p) {
      return false;
    }
    ok := w.run(i);
    s.events := s.events + [Ran(i, ok)];
  }

  method VerifyAndRecover(s: ControlState, w: World, i: nat, p: Planned)
    modifies s`events, s`outcome
    ensures s.events == old(s.events) + Verifying(w, i, p).0 && s.outcome == Verifying(w, i, p).1
  {
    var status, _ := VerifyAction(w, false, i, p.action, MAX_ATTEMPTS);
    s.events := s.events + [Verified(i, status)];
    if status == Success {
      s.outcome := Succeeded;
      return;
    }
    if status == Failed || status == Degraded {
      s.outcome := ActionFailed;
      var rollback := CreateRollbackPlan(p.action);
      if rollback.available && IsRollbackSafe(rollback) {
        var ok := w.rollbackRun(i);
        s.events := s.events + [RollbackRan(i, ok)];
        if ok {
          var again, _ := VerifyAction(w, true, i, p.action, MAX_ATTEMPTS);
          s.events := s.events + [Reverified(i, again)];
          if again == Success {
            s.outcome := RolledBack;
          }
        }
      }
      return;
    }
    s.outcome := Undecided;
  }
}
