// What the action flow keeps on every plan with every user and every component, and which
// requests get there at all (ControlLoop.run, _create_plan, planner.py, hypotheses.py).
module ControlRuns {
  import opened Wrappers
  import opened Control

  // The plan entries whose command was sent, in order.
  function RanEntries(events: seq<Event>): seq<nat> {
    if events == [] then []
    else if events[0].Ran? then [events[0].entry] + RanEntries(events[1..])
    else RanEntries(events[1..])
  }

  function Range(from: nat, n: nat): (r: seq<nat>)
    ensures |r| == n && forall j | 0 <= j < n :: r[j] == from + j
  {
    seq(n, j => from + j)
  }

  lemma {:induction false} RanAppend(x: seq<Event>, y: seq<Event>)
    ensures RanEntries(x + y) == RanEntries(x) + RanEntries(y)
  {
    if x == [] {
      assert x + y == y;
    } else {
      RanAppend(x[1..], y);
      assert (x + y)[0] == x[0] && (x + y)[1..] == x[1..] + y;
    }
  }

  // ---- One entry ----

  // A sent command is directly preceded by the user's approval of that very entry.
  ghost predicate RunsApproved(events: seq<Event>, plan: seq<Planned>) {
    forall j | 0 <= j < |events| && events[j].Ran? ::
      && events[j].entry < |plan| && IsWrite(plan[events[j].entry].action)
      && j > 0 && events[j - 1] == Asked(events[j].entry, true)
  }

  predicate Stops(e: Event) {
    (e.Asked? && !e.yes) || (e.Ran? && !e.ok)
  }

  // Nothing follows a denial or a failed command.
  ghost predicate StopsAtTheEnd(events: seq<Event>) {
    forall j | 0 <= j < |events| && Stops(events[j]) :: j == |events| - 1
  }

  predicate WentWrong(status: Status) {
    status == Failed || status == Degraded
  }

  // A rollback command only runs for an entry that was approved, whose command succeeded
  // and whose verification did not, one directly after the other.
  predicate RollsBackAt(events: seq<Event>, j: int) {
    j >= 3 && j < |events| && events[j].RollbackRan?
    && var i := events[j].entry;
       && events[j - 3] == Asked(i, true) && events[j - 2] == Ran(i, true)
       && events[j - 1].Verified? && events[j - 1].entry == i && WentWrong(events[j - 1].status)
  }

  ghost predicate RollsBackAfterFailure(events: seq<Event>) {
    forall j | 0 <= j < |events| && events[j].RollbackRan? :: RollsBackAt(events, j)
  }

  // A verification that did not succeed is always followed by a rollback attempt for the
  // same entry.
  ghost predicate RecoveryAttempted(events: seq<Event>) {
    forall j | 0 <= j < |events| && events[j].Verified? && WentWrong(events[j].status) ::
      j + 1 < |events| && events[j + 1].RollbackRan? && events[j + 1].entry == events[j].entry
  }

  ghost predicate Orderly(events: seq<Event>, plan: seq<Planned>) {
    RunsApproved(events, plan) && StopsAtTheEnd(events) && RollsBackAfterFailure(events) && RecoveryAttempted(events)
  }

  // What a verification leaves: its status, then a rollback and its verification if needed.
  lemma VerifyingEvents(w: World, i: nat, p: Planned)
    ensures var events := Verifying(w, i, p).0; var status := VerifyStatus(w, false, i, p.action, MAX_ATTEMPTS);
      && 1 <= |events| <= 3 && events[0] == Verified(i, status)
      && (WentWrong(status) <==> |events| > 1)
      && (|events| > 1 ==> events[1] == RollbackRan(i, w.rollbackRun(i)))
      && (|events| > 2 ==> events[2].Reverified?)
  {
    var status := VerifyStatus(w, false, i, p.action, MAX_ATTEMPTS);
    if WentWrong(status) {
      assert Checks(p.action) != 0 && IsRollbackSafe(CreateRollbackPlan(p.action));
      assert Verifying(w, i, p).0 == [Verified(i, status)] + Recovering(w, i, p).0;
    }
  }

  // The events of an entry that is executed and then verified.
  predicate VerifiedEntry(events: seq<Event>, i: nat) {
    && 3 <= |events| <= 5
    && events[0] == Asked(i, true) && events[1] == Ran(i, true) && events[2].Verified? && events[2].entry == i
    && (WentWrong(events[2].status) <==> |events| > 3)
    && (|events| > 3 ==> events[3].RollbackRan? && events[3].entry == i)
    && (|events| > 4 ==> events[4].Reverified?)
  }

  lemma VerifiedEntryIsOrderly(events: seq<Event>, plan: seq<Planned>, i: nat)
    requires VerifiedEntry(events, i) && i < |plan| && IsWrite(plan[i].action)
    ensures Orderly(events, plan)
  {
    assert |events| > 3 ==> RollsBackAt(events, 3);
  }

  lemma ExecutedAndVerified(w: World, plan: seq<Planned>, i: nat)
    requires i < |plan| && IsWrite(plan[i].action)
    ensures var events := ([Asked(i, true)] + [Ran(i, true)]) + Verifying(w, i, plan[i]).0;
      Orderly(events, plan) && RanEntries(events) == [i]
  {
    var before, more := [Asked(i, true)] + [Ran(i, true)], Verifying(w, i, plan[i]).0;
    VerifyingEvents(w, i, plan[i]);
    VerifiedEntryIsOrderly(before + more, plan, i);
    AskedAndRanIsOrderly(plan, i, true);
    RanAppend(before, more);
    NoRuns(more);
  }

  lemma {:induction false} NoRuns(events: seq<Event>)
    requires forall j | 0 <= j < |events| :: !events[j].Ran?
    ensures RanEntries(events) == []
  {
    if events != [] { NoRuns(events[1..]); }
  }

  lemma AskedAndRanIsOrderly(plan: seq<Planned>, i: nat, ok: bool)
    requires i < |plan| && IsWrite(plan[i].action)
    ensures Orderly([Asked(i, true)] + [Ran(i, ok)], plan) && RanEntries([Asked(i, true)] + [Ran(i, ok)]) == [i]
  {
    RanAppend([Asked(i, true)], [Ran(i, ok)]);
    assert [Asked(i, true)][1..] == [] && [Ran(i, ok)][1..] == [];
  }

  lemma EntryIsOrderly(w: World, plan: seq<Planned>, i: nat, verify: bool)
    requires i < |plan|
    ensures var e := HandleEntry(w, i, plan[i], verify);
      && Orderly(e.events, plan)
      && (e.goesOn ==> e.executed && forall j | 0 <= j < |e.events| :: !Stops(e.events[j]))
      && (e.goesOn ==> RanEntries(e.events) == [i])
      && (RanEntries(e.events) == [] || (RanEntries(e.events) == [i] && e.executed))
  {
    var p := plan[i];
    if Permitted(w, i, p) && Sends(w, p) {
      AskedAndRanIsOrderly(plan, i, w.run(i));
      if w.run(i) && verify {
        ExecutedAndVerified(w, plan, i);
      }
    } else {
      UnsentIsOrderly(w, plan, i);
    }
  }

  lemma UnsentIsOrderly(w: World, plan: seq<Planned>, i: nat)
    requires i < |plan| && (!Permitted(w, i, plan[i]) || !Sends(w, plan[i]))
    ensures var asked := Asking(w, i, plan[i]);
      && Orderly(asked, plan) && Orderly(asked + [], plan)
      && RanEntries(asked) == [] && RanEntries(asked + []) == []
  {
    var asked := Asking(w, i, plan[i]);
    assert asked + [] == asked;
    NoRuns(asked);
  }

  // ---- Whole flows ----

  lemma AppendOrderly(x: seq<Event>, y: seq<Event>, plan: seq<Planned>)
    requires Orderly(x, plan) && Orderly(y, plan) && forall j | 0 <= j < |x| :: !Stops(x[j])
    ensures Orderly(x + y, plan)
  {
    var all := x + y;
    assert forall j | 0 <= j < |x| :: all[j] == x[j];
    assert forall j | 0 <= j < |y| :: all[|x| + j] == y[j];
    forall j | 0 <= j < |all| && Stops(all[j]) ensures j == |all| - 1 {
      assert j >= |x| && all[j] == y[j - |x|];
    }
    forall j | 0 <= j < |all| && all[j].Ran?
      ensures all[j].entry < |plan| && IsWrite(plan[all[j].entry].action) && j > 0 && all[j - 1] == Asked(all[j].entry, true)
    {
      if j >= |x| { assert all[j] == y[j - |x|] && all[j - 1] == y[j - |x| - 1]; }
    }
    AppendRollsBack(x, y);
    forall j | 0 <= j < |all| && all[j].Verified? && WentWrong(all[j].status)
      ensures j + 1 < |all| && all[j + 1].RollbackRan? && all[j + 1].entry == all[j].entry
    {
      if j >= |x| { assert all[j] == y[j - |x|] && all[j + 1] == y[j - |x| + 1]; }
    }
  }

  lemma AppendRollsBack(x: seq<Event>, y: seq<Event>)
    requires RollsBackAfterFailure(x) && RollsBackAfterFailure(y)
    ensures RollsBackAfterFailure(x + y)
  {
    var all := x + y;
    forall j | 0 <= j < |all| && all[j].RollbackRan? ensures RollsBackAt(all, j) {
      if j < |x| {
        assert RollsBackAt(x, j);
      } else {
        assert RollsBackAt(y, j - |x|);
        assert forall k | 0 <= k < |y| :: all[|x| + k] == y[k];
      }
    }
  }

  // In every flow each entry's own command was approved by the user for that entry just
  // before, nothing follows a denial or a failure, and a rollback is tried exactly after
  // the failed verification of an entry, whose own command was approved and succeeded.
  lemma {:induction false} FlowIsOrderly(w: World, plan: seq<Planned>, i: nat, count: nat, outcome: Outcome, verify: bool)
    requires i <= |plan|
    ensures Orderly(Flow(w, plan, i, count, outcome, verify).0, plan)
    decreases |plan| - i
  {
    if i < |plan| && count < MAX_ACTIONS_PER_RUN {
      EntryIsOrderly(w, plan, i, verify);
      var e := HandleEntry(w, i, plan[i], verify);
      if e.goesOn {
        FlowIsOrderly(w, plan, i + 1, count + 1, e.outcome, verify);
        AppendOrderly(e.events, Flow(w, plan, i + 1, count + 1, e.outcome, verify).0, plan);
      }
    }
  }

  // One entry of a flow: whether its command is sent, and whether the flow goes on.
  lemma FlowStep(w: World, plan: seq<Planned>, i: nat, count: nat, outcome: Outcome, verify: bool)
    returns (ran: seq<nat>, goesOn: bool, next: Outcome)
    requires i < |plan| && count < MAX_ACTIONS_PER_RUN
    ensures (ran == [] || ran == [i]) && (goesOn ==> ran == [i] && !verify)
    ensures var (events, _, total) := Flow(w, plan, i, count, outcome, verify);
      var (rest, _, later) := Flow(w, plan, i + 1, count + 1, next, verify);
      && RanEntries(events) == (if goesOn then [i] + RanEntries(rest) else ran)
      && (if goesOn then total == later else count + |ran| <= total <= count + 1)
  {
    EntryIsOrderly(w, plan, i, verify);
    var e := HandleEntry(w, i, plan[i], verify);
    ran, goesOn, next := RanEntries(e.events), e.goesOn, e.outcome;
    if goesOn {
      RanAppend(e.events, Flow(w, plan, i + 1, count + 1, next, verify).0);
    }
  }

  // The entries from i on, one after the other, within the plan.
  predicate InOrder(ran: seq<nat>, i: nat, planned: nat) {
    ran == Range(i, |ran|) && i + |ran| <= planned
  }

  lemma FirstInOrder(ran: seq<nat>, i: nat, planned: nat)
    requires i <= planned && (ran == [] || (ran == [i] && i < planned))
    ensures InOrder(ran, i, planned)
  {}

  lemma OneMoreInOrder(later: seq<nat>, i: nat, planned: nat)
    requires InOrder(later, i + 1, planned)
    ensures InOrder([i] + later, i, planned)
  {}

  lemma {:induction false} CommandsInOrder(w: World, plan: seq<Planned>, i: nat, count: nat, outcome: Outcome, verify: bool)
    requires i <= |plan|
    ensures InOrder(RanEntries(Flow(w, plan, i, count, outcome, verify).0), i, |plan|)
    decreases |plan| - i
  {
    if i < |plan| && count < MAX_ACTIONS_PER_RUN {
      var ran, goesOn, next := FlowStep(w, plan, i, count, outcome, verify);
      if goesOn {
        CommandsInOrder(w, plan, i + 1, count + 1, next, verify);
        OneMoreInOrder(RanEntries(Flow(w, plan, i + 1, count + 1, next, verify).0), i, |plan|);
      } else {
        FirstInOrder(ran, i, |plan|);
      }
    } else {
      FirstInOrder([], i, |plan|);
    }
  }

  lemma {:induction false} CommandsAreCounted(w: World, plan: seq<Planned>, i: nat, count: nat, outcome: Outcome, verify: bool)
    requires i <= |plan|
    ensures var (events, _, total) := Flow(w, plan, i, count, outcome, verify);
      && count + |RanEntries(events)| <= total <= (if count < MAX_ACTIONS_PER_RUN then MAX_ACTIONS_PER_RUN else count)
      && (verify ==> |RanEntries(events)| <= 1)
    decreases |plan| - i
  {
    if i < |plan| && count < MAX_ACTIONS_PER_RUN {
      var ran, goesOn, next := FlowStep(w, plan, i, count, outcome, verify);
      if goesOn {
        CommandsAreCounted(w, plan, i + 1, count + 1, next, verify);
      }
    }
  }

  // The commands sent are those of n consecutive entries, at most three in a run and one
  // with verification.
  lemma CommandsAreAPrefix(w: World, plan: seq<Planned>, i: nat, count: nat, outcome: Outcome, verify: bool)
    returns (n: nat)
    requires i <= |plan|
    ensures var (events, _, total) := Flow(w, plan, i, count, outcome, verify);
      && RanEntries(events) == Range(i, n) && i + n <= |plan|
      && count + n <= total <= (if count < MAX_ACTIONS_PER_RUN then MAX_ACTIONS_PER_RUN else count)
    ensures verify ==> n <= 1
  {
    CommandsInOrder(w, plan, i, count, outcome, verify);
    CommandsAreCounted(w, plan, i, count, outcome, verify);
    n := |RanEntries(Flow(w, plan, i, count, outcome, verify).0)|;
  }

  // ---- Outcomes ----

  predicate DoneWell(w: World, plan: seq<Planned>, i: nat)
    requires i < |plan|
  {
    Permitted(w, i, plan[i]) && ExecutesWell(w, i, plan[i])
  }

  lemma UnverifiedEntry(w: World, plan: seq<Planned>, i: nat)
    requires i < |plan|
    ensures var e := HandleEntry(w, i, plan[i], false);
      && (e.goesOn <==> DoneWell(w, plan, i)) && (e.goesOn <==> e.outcome == Succeeded)
      && (e.goesOn ==> e.executed)
      && forall x | x in e.events :: x.Asked? || x.Ran?
  {
  }

  predicate AllDoneWell(w: World, plan: seq<Planned>, i: nat, end: int)
    requires end <= |plan|
  {
    forall j | i <= j < end :: DoneWell(w, plan, j)
  }

  lemma AllDoneFirst(w: World, plan: seq<Planned>, i: nat, end: int)
    requires i < end <= |plan|
    ensures AllDoneWell(w, plan, i, end) <==> DoneWell(w, plan, i) && AllDoneWell(w, plan, i + 1, end)
  {}

  lemma {:induction false} FlowUnverified(w: World, plan: seq<Planned>, i: nat, count: nat, outcome: Outcome)
    requires i < |plan| && count < MAX_ACTIONS_PER_RUN
    ensures var result := Flow(w, plan, i, count, outcome, false).1;
      if DoneWell(w, plan, i) then result == Flow(w, plan, i + 1, count + 1, Succeeded, false).1
      else result != Succeeded
  {
    UnverifiedEntry(w, plan, i);
  }

  // Without verification the flow succeeds exactly when the entries it may execute, up to
  // the third, were all permitted and succeeded.
  lemma {:induction false} UnverifiedSuccess(w: World, plan: seq<Planned>, i: nat, count: nat, outcome: Outcome)
    requires i <= |plan| && count <= MAX_ACTIONS_PER_RUN
    ensures var end := Min(|plan|, i + MAX_ACTIONS_PER_RUN - count);
      Flow(w, plan, i, count, outcome, false).1 == Succeeded <==>
        AllDoneWell(w, plan, i, end) && (i < end || outcome == Succeeded)
    decreases |plan| - i
  {
    if i < |plan| && count < MAX_ACTIONS_PER_RUN {
      FlowUnverified(w, plan, i, count, outcome);
      AllDoneFirst(w, plan, i, Min(|plan|, i + MAX_ACTIONS_PER_RUN - count));
      UnverifiedSuccess(w, plan, i + 1, count + 1, Succeeded);
    }
  }

  // With verification only the first entry is executed, and every outcome has its exact
  // cause. A failed check never ends without a rollback attempt.
  lemma VerifiedOutcomes(w: World, plan: seq<Planned>, outcome: Outcome)
    requires plan != []
    ensures var p := plan[0];
      var result := Flow(w, plan, 0, 0, outcome, true).1;
      var status := VerifyStatus(w, false, 0, p.action, MAX_ATTEMPTS);
      var again := VerifyStatus(w, true, 0, p.action, MAX_ATTEMPTS);
      && (result == Refused <==> !Permitted(w, 0, p))
      && (result == Succeeded <==> DoneWell(w, plan, 0) && status == Success)
      && (result == RolledBack <==>
            DoneWell(w, plan, 0) && (status == Failed || status == Degraded) && w.rollbackRun(0) && again == Success)
      && (result == Undecided <==> DoneWell(w, plan, 0) && Checks(p.action) == 0)
  {
    var e := HandleEntry(w, 0, plan[0], true);
    assert Flow(w, plan, 0, 0, outcome, true) == (e.events, e.outcome, if e.executed then 1 else 0);
  }

  // ---- Commands nobody was asked about ----

  // Every command sent, an entry's own or a rollback's, follows the approval of it.
  ghost predicate AllApproved(events: seq<Event>) {
    forall j | 0 <= j < |events| && (events[j].Ran? || events[j].RollbackRan?) ::
      j > 0 && events[j - 1] == Asked(events[j].entry, true)
  }

  // The first entry of the flow is executed and then fails its verification.
  predicate FailsVerified(w: World, plan: seq<Planned>, i: nat, count: nat) {
    i < |plan| && count < MAX_ACTIONS_PER_RUN && DoneWell(w, plan, i)
    && WentWrong(VerifyStatus(w, false, i, plan[i].action, MAX_ATTEMPTS))
  }

  // Write actions are never to be approved without the operator. A rollback is one, and
  // the flow sends it without asking: so the rule holds exactly as long as no rollback is
  // due, that is without verification, or when the verification does not fail.
  lemma AllApprovedIff(w: World, plan: seq<Planned>, i: nat, count: nat, outcome: Outcome, verify: bool)
    requires i <= |plan|
    ensures AllApproved(Flow(w, plan, i, count, outcome, verify).0) <==> !(verify && FailsVerified(w, plan, i, count))
  {
    var events := Flow(w, plan, i, count, outcome, verify).0;
    FlowIsOrderly(w, plan, i, count, outcome, verify);
    if !verify {
      UnverifiedEvents(w, plan, i, count, outcome);
      assert forall j | 0 <= j < |events| :: events[j] in events;
    } else if i < |plan| && count < MAX_ACTIONS_PER_RUN {
      assert events == HandleEntry(w, i, plan[i], true).events;
      if DoneWell(w, plan, i) {
        VerifyingEvents(w, i, plan[i]);
        var more := Verifying(w, i, plan[i]).0;
        assert events == ([Asked(i, true)] + [Ran(i, true)]) + more;
        assert forall j | 0 <= j < |more| :: events[j + 2] == more[j];
      }
    }
  }

  // A container that was restarted with the operator's consent and is still down is
  // restarted once more without it.
  function StillDown(): World {
    World(_ => Low, _ => true, _ => true, _ => true, (_, _, _, _) => false, _ => true)
  }

  lemma NothingPasses(again: bool)
    ensures VerifyStatus(StillDown(), again, 0, RestartContainer, MAX_ATTEMPTS) == Failed
  {
    forall t: nat ensures !AllPass(StillDown(), again, 0, t, 3) {
      assert !StillDown().check(again, 0, t, 0);
    }
  }

  lemma RollbackGoesUnasked()
    ensures Flow(StillDown(), [Planned(RestartContainer, "web")], 0, 0, Undecided, true).0
         == [Asked(0, true), Ran(0, true), Verified(0, Failed), RollbackRan(0, true), Reverified(0, Failed)]
  {
    var p := Planned(RestartContainer, "web");
    NothingPasses(false);
    NothingPasses(true);
    assert Verifying(StillDown(), 0, p).0 == [Verified(0, Failed), RollbackRan(0, true), Reverified(0, Failed)];
    assert HandleEntry(StillDown(), 0, p, true).events == ([Asked(0, true)] + [Ran(0, true)]) + Verifying(StillDown(), 0, p).0;
  }

  // ---- Which requests act (run) ----

  datatype Verb = Start | Stop | Restart | Reboot

  // A request as the patterns of _create_plan read it: the lifecycle verb, the targets
  // named, and whether the word "service" occurs.
  datatype Request = Request(immediate: bool, lifecycle: seq<Verb>, namesTarget: bool, targets: seq<string>, service: bool)

  datatype Hypothesis = Hypothesis(components: seq<string>, evidenceFor: nat, evidenceAgainst: nat)

  function Clamp(x: real): real {
    if x < 0.0 then 0.0 else if x > 1.0 then 1.0 else x
  }

  function Confidence(h: Hypothesis): real {
    var c := 0.1 + h.evidenceFor as real * 0.15 - h.evidenceAgainst as real * 0.2;
    Clamp(if h.evidenceFor > 2 then c + 0.1 else c)
  }

  // select_best: the first of the most confident hypotheses.
  function Best(hs: seq<Hypothesis>): (i: nat)
    requires hs != []
    ensures i < |hs|
  {
    if |hs| == 1 then 0
    else
      var i := Best(hs[..|hs| - 1]);
      if Confidence(hs[|hs| - 1]) > Confidence(hs[i]) then |hs| - 1 else i
  }

  function ActionFor(r: Request): ActionType
    requires r.lifecycle != []
  {
    match r.lifecycle[0]
    case Reboot => if r.service then RestartService else RestartContainer
    case Restart => RestartContainer
    case Start => StartContainer
    case Stop => StopContainer
  }

  function PlanEach(a: ActionType, targets: seq<string>): (plan: seq<Planned>)
    ensures |plan| == |targets| && forall i | 0 <= i < |plan| :: plan[i] == Planned(a, targets[i])
  {
    seq(|targets|, i requires 0 <= i < |targets| => Planned(a, targets[i]))
  }

  function NonEmpty(components: seq<string>): seq<string> {
    if components == [] then []
    else (if components[0] != "" then [components[0]] else []) + NonEmpty(components[1..])
  }

  function CreatePlan(r: Request, hs: seq<Hypothesis>): seq<Planned> {
    if r.lifecycle != [] && r.namesTarget then PlanEach(ActionFor(r), r.targets)
    else if hs == [] then []
    else PlanEach(RestartContainer, NonEmpty(hs[Best(hs)].components))
  }

  // can_take_action, before any action was executed.
  predicate CanTakeAction(hs: seq<Hypothesis>) {
    hs != [] && Confidence(hs[Best(hs)]) >= 0.5
  }

  // The run: in immediate mode no evidence is collected, so there is no hypothesis.
  function RunRequest(w: World, r: Request, observed: seq<Hypothesis>): (seq<Event>, Outcome) {
    var hs := if r.immediate then [] else observed;
    var plan := CreatePlan(r, hs);
    if plan != [] && (r.immediate || CanTakeAction(hs)) then
      var (events, outcome, _) := Flow(w, plan, 0, 0, Undecided, !r.immediate);
      (events, outcome)
    else
      ([], if hs != [] && Confidence(hs[Best(hs)]) >= 0.5 then Succeeded else Undecided)
  }

  // Every hypothesis inferred from an observation carries one piece of evidence, which is
  // worth 0.25. So no run outside the immediate mode ever acts, asks or reports success,
  // even one that names an action and its target; verification is never reached from here.
  lemma OnlyImmediateRunsAct(w: World, r: Request, observed: seq<Hypothesis>)
    requires forall i | 0 <= i < |observed| :: observed[i].evidenceFor == 1 && observed[i].evidenceAgainst == 0
    requires !r.immediate
    ensures RunRequest(w, r, observed) == ([], Undecided)
  {
    if observed != [] {
      var h := observed[Best(observed)];
      assert h.evidenceFor as real * 0.15 == 0.15 && h.evidenceAgainst as real * 0.2 == 0.0;
      assert Confidence(h) == 0.25;
    }
  }

  lemma ImmediateRunIsFlow(w: World, r: Request, observed: seq<Hypothesis>)
    requires r.immediate && r.lifecycle != [] && r.namesTarget && r.targets != []
    ensures var plan := PlanEach(ActionFor(r), r.targets);
      var flow := Flow(w, plan, 0, 0, Undecided, false);
      RunRequest(w, r, observed) == (flow.0, flow.1)
  {
  }

  // An immediate run on named targets succeeds exactly when its first three entries (or
  // fewer) were all approved by the user and all their commands succeeded.
  lemma ImmediateRunOutcome(w: World, r: Request, observed: seq<Hypothesis>)
    requires r.immediate && r.lifecycle != [] && r.namesTarget && r.targets != []
    ensures var plan := PlanEach(ActionFor(r), r.targets);
      RunRequest(w, r, observed).1 == Succeeded <==>
        forall i | 0 <= i < Min(|plan|, MAX_ACTIONS_PER_RUN) :: w.approve(i) && w.builds(plan[i]) && w.run(i)
  {
    var plan := PlanEach(ActionFor(r), r.targets);
    ImmediateRunIsFlow(w, r, observed);
    UnverifiedSuccess(w, plan, 0, 0, Undecided);
    assert forall i | 0 <= i < |plan| :: DoneWell(w, plan, i) <==> w.approve(i) && w.builds(plan[i]) && w.run(i);
  }

  // It asks, runs commands in plan order, at most three, and does nothing else.
  lemma ImmediateRunEvents(w: World, r: Request, observed: seq<Hypothesis>) returns (n: nat)
    requires r.immediate && r.lifecycle != [] && r.namesTarget && r.targets != []
    ensures var events := RunRequest(w, r, observed).0;
      && Orderly(events, PlanEach(ActionFor(r), r.targets))
      && n <= MAX_ACTIONS_PER_RUN && RanEntries(events) == Range(0, n)
      && forall e | e in events :: e.Asked? || e.Ran?
  {
    var plan := PlanEach(ActionFor(r), r.targets);
    ImmediateRunIsFlow(w, r, observed);
    FlowIsOrderly(w, plan, 0, 0, Undecided, false);
    n := CommandsAreAPrefix(w, plan, 0, 0, Undecided, false);
    UnverifiedEvents(w, plan, 0, 0, Undecided);
  }

  lemma {:induction false} UnverifiedEvents(w: World, plan: seq<Planned>, i: nat, count: nat, outcome: Outcome)
    requires i <= |plan|
    ensures forall e | e in Flow(w, plan, i, count, outcome, false).0 :: e.Asked? || e.Ran?
    decreases |plan| - i
  {
    if i < |plan| && count < MAX_ACTIONS_PER_RUN {
      UnverifiedEntry(w, plan, i);
      if DoneWell(w, plan, i) { UnverifiedEvents(w, plan, i + 1, count + 1, Succeeded); }
    }
  }
}
