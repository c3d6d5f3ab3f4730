// Organizations, machines and workers over whole runs: which tokens register a worker, and
// which worker a machine names.
module ControlPlaneRuns {
  import opened Wrappers
  import Text
  import opened ControlPlane

  // ------------------------------------------------------------------
  // Enrollments and workers over whole runs
  // ------------------------------------------------------------------

  datatype Entry =
    | Issued(token: string, at: int, minutes: int)
    | Registered(token: string, worker: string, secret: string, at: int)

  datatype Trace = Trace(state: State, log: seq<Entry>)

  function Noted(hash: string -> string, s: State, e: Event): seq<Entry> {
    if Verdict(hash, s, e) != Done then []
    else
      match e
      case CreateEnrollment(token, _, minutes, now) => [Issued(token, now, Lifetime(minutes))]
      case RegisterWorker(token, id, secret, _, _, _, now) => [Registered(token, id, secret, now)]
      case _ => []
  }

  function Run(hash: string -> string, events: seq<Event>): Trace {
    if events == [] then Trace(NO_RECORDS, [])
    else
      var t := Run(hash, events[..|events| - 1]);
      var e := events[|events| - 1];
      Trace(Step(hash, t.state, e), t.log + Noted(hash, t.state, e))
  }

  predicate Feasible(hash: string -> string, events: seq<Event>) {
    events == [] ||
    (Feasible(hash, events[..|events| - 1]) &&
     Fresh(hash, Run(hash, events[..|events| - 1]).state, events[|events| - 1]))
  }

  lemma {:induction false} RunIsGood(hash: string -> string, events: seq<Event>)
    requires Feasible(hash, events)
    ensures Good(Run(hash, events).state)
  {
    if events != [] {
      RunIsGood(hash, events[..|events| - 1]);
      StepKeepsGood(hash, Run(hash, events[..|events| - 1]).state, events[|events| - 1]);
    }
  }

  // What an entry of the log says about the tables.
  predicate Backed(hash: string -> string, s: State, r: Entry) {
    var key := hash(r.token);
    key in s.enrollments &&
    match r
    case Issued(_, at, minutes) => 1 <= minutes <= 60 && s.enrollments[key].expires == at + 60 * minutes
    case Registered(_, worker, secret, at) =>
      s.enrollments[key].used && at < s.enrollments[key].expires &&
      worker in s.workers && s.workers[worker].scope == s.enrollments[key].scope &&
      s.workers[worker].secretHash == hash(secret)
  }

  predicate IssuedKey(hash: string -> string, log: seq<Entry>, key: string) {
    exists i :: 0 <= i < |log| && log[i].Issued? && hash(log[i].token) == key
  }

  predicate RegisteredKey(hash: string -> string, log: seq<Entry>, key: string) {
    exists i :: 0 <= i < |log| && log[i].Registered? && hash(log[i].token) == key
  }

  predicate RegisteredWorker(log: seq<Entry>, worker: string) {
    exists i :: 0 <= i < |log| && log[i].Registered? && log[i].worker == worker
  }

  predicate OneEach(hash: string -> string, log: seq<Entry>) {
    forall i, j :: 0 <= i < j < |log| && log[i].Registered? && log[j].Registered? ==>
      hash(log[i].token) != hash(log[j].token) && log[i].worker != log[j].worker
  }

  predicate Accounted(hash: string -> string, t: Trace) {
    (forall i :: 0 <= i < |t.log| ==> Backed(hash, t.state, t.log[i])) &&
    (forall key {:trigger IssuedKey(hash, t.log, key)} ::
       key in t.state.enrollments ==> IssuedKey(hash, t.log, key)) &&
    (forall key {:trigger RegisteredKey(hash, t.log, key)} ::
       key in t.state.enrollments && t.state.enrollments[key].used ==> RegisteredKey(hash, t.log, key)) &&
    (forall id {:trigger RegisteredWorker(t.log, id)} :: id in t.state.workers ==> RegisteredWorker(t.log, id)) &&
    OneEach(hash, t.log)
  }

  lemma LogGrows(hash: string -> string, log: seq<Entry>, more: seq<Entry>)
    ensures forall key :: IssuedKey(hash, log, key) ==> IssuedKey(hash, log + more, key)
    ensures forall key :: RegisteredKey(hash, log, key) ==> RegisteredKey(hash, log + more, key)
    ensures forall id :: RegisteredWorker(log, id) ==> RegisteredWorker(log + more, id)
  {
    var all := log + more;
    forall key | IssuedKey(hash, log, key) ensures IssuedKey(hash, all, key) {
      var i :| 0 <= i < |log| && log[i].Issued? && hash(log[i].token) == key;
      assert all[i] == log[i];
    }
    forall key | RegisteredKey(hash, log, key) ensures RegisteredKey(hash, all, key) {
      var i :| 0 <= i < |log| && log[i].Registered? && hash(log[i].token) == key;
      assert all[i] == log[i];
    }
    forall id | RegisteredWorker(log, id) ensures RegisteredWorker(all, id) {
      var i :| 0 <= i < |log| && log[i].Registered? && log[i].worker == id;
      assert all[i] == log[i];
    }
  }

  lemma StepStaysOneEach(hash: string -> string, t: Trace, e: Event)
    requires Accounted(hash, t) && Fresh(hash, t.state, e)
    ensures OneEach(hash, t.log + Noted(hash, t.state, e))
  {
    var noted := Noted(hash, t.state, e);
    var log := t.log + noted;
    forall i, j | 0 <= i < j < |log| && log[i].Registered? && log[j].Registered?
      ensures hash(log[i].token) != hash(log[j].token) && log[i].worker != log[j].worker
    {
      assert log[i] == t.log[i] && Backed(hash, t.state, t.log[i]);
      if j == |t.log| { assert log[j] == noted[0]; }
    }
  }

  lemma StepIssues(hash: string -> string, t: Trace, e: Event, key: string)
    requires Accounted(hash, t)
    requires key in Step(hash, t.state, e).enrollments
    ensures var log := t.log + Noted(hash, t.state, e); var after := Step(hash, t.state, e).enrollments[key];
            IssuedKey(hash, log, key) && (after.used ==> RegisteredKey(hash, log, key))
  {
    var noted := Noted(hash, t.state, e);
    var log := t.log + noted;
    LogGrows(hash, t.log, noted);
    if noted != [] { assert log[|t.log|] == noted[0]; }
  }

  lemma StepRegisters(hash: string -> string, t: Trace, e: Event, id: string)
    requires Accounted(hash, t)
    requires id in Step(hash, t.state, e).workers
    ensures RegisteredWorker(t.log + Noted(hash, t.state, e), id)
  {
    var noted := Noted(hash, t.state, e);
    var log := t.log + noted;
    LogGrows(hash, t.log, noted);
    if noted != [] { assert log[|t.log|] == noted[0]; }
  }

  lemma StepIsAccounted(hash: string -> string, t: Trace, e: Event)
    requires Accounted(hash, t) && Fresh(hash, t.state, e)
    ensures Accounted(hash, Trace(Step(hash, t.state, e), t.log + Noted(hash, t.state, e)))
  {
    var s' := Step(hash, t.state, e);
    var log := t.log + Noted(hash, t.state, e);
    forall i: nat | i < |log| ensures Backed(hash, s', log[i]) {
    }
    forall key | key in s'.enrollments
      ensures IssuedKey(hash, log, key) &&
              (s'.enrollments[key].used ==> RegisteredKey(hash, log, key))
    {
      StepIssues(hash, t, e, key);
    }
    forall id | id in s'.workers ensures RegisteredWorker(log, id) {
      StepRegisters(hash, t, e, id);
    }
    StepStaysOneEach(hash, t, e);
  }

  lemma {:induction false} RunIsAccounted(hash: string -> string, events: seq<Event>)
    requires Feasible(hash, events)
    ensures Accounted(hash, Run(hash, events))
  {
    if events != [] {
      RunIsAccounted(hash, events[..|events| - 1]);
      StepIsAccounted(hash, Run(hash, events[..|events| - 1]), events[|events| - 1]);
    }
  }

  predicate SameHash(hash: string -> string, x: string, y: string) { hash(x) == hash(y) }

  ghost predicate Injective(hash: string -> string) { forall x, y :: SameHash(hash, x, y) ==> x == y }

  predicate Redeemed(log: seq<Entry>, token: string) {
    exists i :: 0 <= i < |log| && log[i].Registered? && log[i].token == token
  }

  // Handed out 1 to 60 minutes before it expires, and not expired yet.
  predicate Redeemable(log: seq<Entry>, token: string, now: int) {
    exists i :: 0 <= i < |log| && log[i].Issued? && log[i].token == token &&
                1 <= log[i].minutes <= 60 && now < log[i].at + 60 * log[i].minutes
  }

  lemma {:induction false} EnrolledIsOnRecord(hash: string -> string, t: Trace, token: string)
    requires Accounted(hash, t) && Injective(hash) && hash(token) in t.state.enrollments
    ensures forall now: int :: now < t.state.enrollments[hash(token)].expires ==> Redeemable(t.log, token, now)
    ensures t.state.enrollments[hash(token)].used ==> Redeemed(t.log, token)
  {
    var key := hash(token);
    assert IssuedKey(hash, t.log, key);
    var i :| 0 <= i < |t.log| && t.log[i].Issued? && hash(t.log[i].token) == key;
    assert SameHash(hash, t.log[i].token, token) && Backed(hash, t.state, t.log[i]);
    if t.state.enrollments[key].used {
      assert RegisteredKey(hash, t.log, key);
      var j :| 0 <= j < |t.log| && t.log[j].Registered? && hash(t.log[j].token) == key;
      assert SameHash(hash, t.log[j].token, token);
    }
  }

  lemma {:induction false} RecordIsEnrolled(hash: string -> string, t: Trace, token: string, i: nat)
    requires Accounted(hash, t) && i < |t.log| && t.log[i].token == token
    ensures hash(token) in t.state.enrollments
    ensures var enrollment := t.state.enrollments[hash(token)]; var r := t.log[i];
            if r.Issued? then enrollment.expires == r.at + 60 * r.minutes else enrollment.used
  {
    assert Backed(hash, t.state, t.log[i]);
  }

  // In every run a token registers a worker exactly when it was handed out, its
  // time has not run out, and nobody has used it.
  lemma {:induction false} RegistersIff(hash: string -> string, t: Trace, e: Event)
    requires Accounted(hash, t) && Injective(hash) && e.RegisterWorker?
    ensures Verdict(hash, t.state, e) == Done <==> Redeemable(t.log, e.token, e.now) && !Redeemed(t.log, e.token)
  {
    if hash(e.token) in t.state.enrollments {
      EnrolledIsOnRecord(hash, t, e.token);
    }
    if i: nat :| i < |t.log| && t.log[i].Registered? && t.log[i].token == e.token {
      RecordIsEnrolled(hash, t, e.token, i);
    }
    if Redeemable(t.log, e.token, e.now) {
      var i :| 0 <= i < |t.log| && t.log[i].Issued? && t.log[i].token == e.token &&
               1 <= t.log[i].minutes <= 60 && e.now < t.log[i].at + 60 * t.log[i].minutes;
      RecordIsEnrolled(hash, t, e.token, i);
    }
  }

  // Used enrollments and workers correspond one to one, with equal scope: a used
  // enrollment has a registration on record, and so has a worker, ...
  lemma UsedHasWorker(hash: string -> string, t: Trace, key: string) returns (i: nat)
    requires Accounted(hash, t)
    requires key in t.state.enrollments && t.state.enrollments[key].used
    ensures i < |t.log| && t.log[i].Registered? && hash(t.log[i].token) == key
    ensures t.log[i].worker in t.state.workers &&
            t.state.workers[t.log[i].worker].scope == t.state.enrollments[key].scope
  {
    assert RegisteredKey(hash, t.log, key);
    i :| i < |t.log| && t.log[i].Registered? && hash(t.log[i].token) == key;
    assert Backed(hash, t.state, t.log[i]);
  }

  lemma WorkerHasEnrollment(hash: string -> string, t: Trace, id: string) returns (i: nat)
    requires Accounted(hash, t)
    requires id in t.state.workers
    ensures i < |t.log| && t.log[i].Registered? && t.log[i].worker == id
    ensures var key := hash(t.log[i].token);
            key in t.state.enrollments && t.state.enrollments[key].used &&
            t.state.enrollments[key].scope == t.state.workers[id].scope &&
            t.log[i].at < t.state.enrollments[key].expires
  {
    assert RegisteredWorker(t.log, id);
    i :| i < |t.log| && t.log[i].Registered? && t.log[i].worker == id;
    assert Backed(hash, t.state, t.log[i]);
  }

  // ... and in every run no enrollment and no worker has two.
  lemma {:induction false} RegistrationsDiffer(hash: string -> string, events: seq<Event>, i: nat, j: nat)
    requires Feasible(hash, events)
    requires var log := Run(hash, events).log; i < j < |log| && log[i].Registered? && log[j].Registered?
    ensures var log := Run(hash, events).log;
            hash(log[i].token) != hash(log[j].token) && log[i].worker != log[j].worker
  {
    RunIsAccounted(hash, events);
  }

  // The worker of the last registration on a machine, going by the log.
  function LastOn(workers: map<string, Worker>, log: seq<Entry>, id: string): Option<string> {
    if log == [] then None
    else
      var r := log[|log| - 1];
      if r.Registered? && r.worker in workers && workers[r.worker].scope.infrastructure == id then Some(r.worker)
      else LastOn(workers, log[..|log| - 1], id)
  }

  predicate Enlisted(workers: map<string, Worker>, log: seq<Entry>) {
    forall i :: 0 <= i < |log| && log[i].Registered? ==> log[i].worker in workers
  }

  lemma {:induction false} LastOnStays(before: map<string, Worker>, after: map<string, Worker>, log: seq<Entry>, id: string)
    requires Enlisted(before, log)
    requires forall w :: w in before ==> w in after && after[w].scope == before[w].scope
    ensures LastOn(after, log, id) == LastOn(before, log, id)
  {
    if log != [] {
      LastOnStays(before, after, log[..|log| - 1], id);
    }
  }

  lemma {:induction false} LastOnIsWorker(workers: map<string, Worker>, log: seq<Entry>, id: string)
    ensures var w := LastOn(workers, log, id);
            w.Some? ==> w.value in workers && workers[w.value].scope.infrastructure == id
  {
    if log != [] {
      LastOnIsWorker(workers, log[..|log| - 1], id);
    }
  }

  predicate RegistersOn(hash: string -> string, s: State, e: Event, id: string) {
    e.RegisterWorker? && Verdict(hash, s, e) == Done && s.enrollments[hash(e.token)].scope.infrastructure == id
  }

  lemma WorkerNamedAfter(hash: string -> string, s: State, e: Event, id: string)
    requires Good(s) && Fresh(hash, s, e) && id in Step(hash, s, e).infrastructure
    ensures Step(hash, s, e).infrastructure[id].worker
            == if RegistersOn(hash, s, e, id) then Some(e.id)
               else if id in s.infrastructure then s.infrastructure[id].worker else None
  {
    if RegistersOn(hash, s, e, id) {
      assert Resolves(s, s.enrollments[hash(e.token)].scope);
      RegistrationIsShown(hash, s, e);
    }
  }

  lemma OldLogStays(hash: string -> string, t: Trace, e: Event, id: string)
    requires Fresh(hash, t.state, e) && forall i :: 0 <= i < |t.log| ==> Backed(hash, t.state, t.log[i])
    ensures LastOn(Step(hash, t.state, e).workers, t.log, id) == LastOn(t.state.workers, t.log, id)
  {
    TablesGrow(hash, t.state, e);
    forall i | 0 <= i < |t.log| && t.log[i].Registered? ensures t.log[i].worker in t.state.workers {
      assert Backed(hash, t.state, t.log[i]);
    }
    LastOnStays(t.state.workers, Step(hash, t.state, e).workers, t.log, id);
  }

  lemma NotedIsLast(hash: string -> string, s: State, e: Event, log: seq<Entry>, id: string)
    ensures LastOn(Step(hash, s, e).workers, log + Noted(hash, s, e), id)
            == if RegistersOn(hash, s, e, id) then Some(e.id) else LastOn(Step(hash, s, e).workers, log, id)
  {
    var noted := Noted(hash, s, e);
    if noted == [] {
      assert log + noted == log;
    } else {
      assert noted == [noted[0]];
    }
  }

  lemma NoneRegistered(hash: string -> string, t: Trace, id: string)
    requires Good(t.state) && id !in t.state.infrastructure
    ensures LastOn(t.state.workers, t.log, id) == None
  {
    LastOnIsWorker(t.state.workers, t.log, id);
    var w := LastOn(t.state.workers, t.log, id);
    assert w.Some? ==> Resolves(t.state, t.state.workers[w.value].scope);
  }

  // In every run a machine names the worker of the last registration on it.
  lemma {:induction false} NamesLastWorker(hash: string -> string, events: seq<Event>, id: string)
    requires Feasible(hash, events) && id in Run(hash, events).state.infrastructure
    ensures var t := Run(hash, events); t.state.infrastructure[id].worker == LastOn(t.state.workers, t.log, id)
  {
    if events != [] {
      var init, e := events[..|events| - 1], events[|events| - 1];
      RunIsGood(hash, init);
      RunIsAccounted(hash, init);
      var t := Run(hash, init);
      if id in t.state.infrastructure {
        NamesLastWorker(hash, init, id);
      } else {
        NoneRegistered(hash, t, id);
      }
      WorkerNamedAfter(hash, t.state, e, id);
      OldLogStays(hash, t, e, id);
      NotedIsLast(hash, t.state, e, t.log, id);
    }
  }

  // A heartbeat is believed exactly when it carries the secret that this
  // worker's registration handed out.
  lemma HeartbeatNeedsItsSecret(hash: string -> string, s: State, e: Event, r: Entry)
    requires Injective(hash) && Backed(hash, s, r) && r.Registered?
    requires e.Heartbeat? && e.id == r.worker
    ensures Verdict(hash, s, e) == Done <==> e.secret == r.secret
  {
    if hash(e.secret) == hash(r.secret) {
      assert SameHash(hash, e.secret, r.secret);
    }
  }

  // The machine shows what the worker it names last reported.
  predicate Mirrors(s: State, id: string)
    requires id in s.infrastructure
  {
    var i := s.infrastructure[id];
    i.worker.Some? ==> i.worker.value in s.workers && s.workers[i.worker.value].report == i.report
  }

  // A machine can have several workers but names only the last one registered. A
  // heartbeat keeps it in step with that one exactly when it comes from it, or
  // happens to report the same.
  lemma HeartbeatMirrorsIff(hash: string -> string, s: State, e: Event)
    requires e.Heartbeat? && Verdict(hash, s, e) == Done
    requires var id := s.workers[e.id].scope.infrastructure;
             id in s.infrastructure && MachineResolves(s, id, s.infrastructure[id]) && Mirrors(s, id)
    ensures var id := s.workers[e.id].scope.infrastructure; var machine := s.infrastructure[id];
            id in Step(hash, s, e).infrastructure &&
            (Mirrors(Step(hash, s, e), id) <==>
             machine.worker.None? || machine.worker == Some(e.id) || machine.report == e.report)
  {}

  // A registration makes the new worker the one its machine names and shows.
  lemma RegistrationIsShown(hash: string -> string, s: State, e: Event)
    requires e.RegisterWorker? && Verdict(hash, s, e) == Done
    requires s.enrollments[hash(e.token)].scope.infrastructure in s.infrastructure
    ensures var t := Step(hash, s, e); var id := s.enrollments[hash(e.token)].scope.infrastructure;
            id in t.infrastructure && t.infrastructure[id].worker == Some(e.id) && Mirrors(t, id) &&
            t.infrastructure[id].report == Report("online", e.capabilities, e.now) &&
            t.infrastructure[id].(worker := s.infrastructure[id].worker, report := s.infrastructure[id].report)
            == s.infrastructure[id]
  {}

  // ------------------------------------------------------------------
  // A machine with two workers
  // ------------------------------------------------------------------

  lemma RunOneMore(hash: string -> string, events: seq<Event>, e: Event)
    ensures var t := Run(hash, events);
            Run(hash, events + [e]) == Trace(Step(hash, t.state, e), t.log + Noted(hash, t.state, e))
    ensures Feasible(hash, events + [e]) <==> Feasible(hash, events) && Fresh(hash, Run(hash, events).state, e)
  {
    assert (events + [e])[..|events|] == events;
  }

  function Site(): Scope { Scope("o", "p", "m") }

  function SomeBuild(): Build { Build("1", "linux", "host") }

  // An organization with one machine, ...
  function Founding(): seq<Event> {
    [CreateOrganization("o", "org")] + [CreateProject("p", "o", "project", "")]
    + [CreateInfrastructure("m", "o", "p", "machine", "vm")]
  }

  // ... two tokens for it, ...
  function Opening(): seq<Event> {
    Founding() + [CreateEnrollment("t1", Site(), 10, 0)] + [CreateEnrollment("t2", Site(), 10, 0)]
  }

  // ... two workers registered with them, and a heartbeat of the first one.
  function FirstRegistration(): Event { RegisterWorker("t1", "w1", "s1", "first", SomeBuild(), {}, 1) }

  function SecondRegistration(): Event { RegisterWorker("t2", "w2", "s2", "second", SomeBuild(), {}, 2) }

  function Staffing(): seq<Event> { Opening() + [FirstRegistration()] + [SecondRegistration()] }

  function FirstBeat(): Event { Heartbeat("w1", "s1", SomeBuild(), Report("degraded", {}, 3)) }

  // The machine is there and no worker is.
  predicate Founded(s: State) {
    "m" in s.infrastructure && s.infrastructure["m"].worker == None && Resolves(s, Site()) && s.workers == map[]
  }

  lemma FoundedRun(hash: string -> string)
    ensures Feasible(hash, Founding()) && Founded(Run(hash, Founding()).state) && Run(hash, Founding()).state.enrollments == map[]
  {
    var organization, project := CreateOrganization("o", "org"), CreateProject("p", "o", "project", "");
    assert [] + [organization] == [organization];
    assert Text.Strip("org") != [] by {
      assert Text.LeadingSpaces("org") == 0;
    }
    RunOneMore(hash, [], organization);
    RunOneMore(hash, [organization], project);
    RunOneMore(hash, [organization] + [project], CreateInfrastructure("m", "o", "p", "machine", "vm"));
  }

  lemma OpeningRun(hash: string -> string)
    requires hash("t1") != hash("t2")
    ensures Feasible(hash, Opening())
    ensures var s := Run(hash, Opening()).state;
            Founded(s) && forall t | t in {"t1", "t2"} ::
              hash(t) in s.enrollments && s.enrollments[hash(t)] == Enrollment(Site(), 600, false)
  {
    FoundedRun(hash);
    RunOneMore(hash, Founding(), CreateEnrollment("t1", Site(), 10, 0));
    RunOneMore(hash, Founding() + [CreateEnrollment("t1", Site(), 10, 0)], CreateEnrollment("t2", Site(), 10, 0));
  }

  // The worker is registered on that machine under the given secret.
  predicate Serves(hash: string -> string, s: State, id: string, secret: string) {
    id in s.workers && s.workers[id].scope == Site() && s.workers[id].secretHash == hash(secret)
  }

  lemma FirstRun(hash: string -> string)
    requires hash("t1") != hash("t2")
    ensures Feasible(hash, Opening() + [FirstRegistration()])
    ensures var s := Run(hash, Opening() + [FirstRegistration()]).state;
            Serves(hash, s, "w1", "s1") && s.workers.Keys == {"w1"} && "m" in s.infrastructure &&
            hash("t2") in s.enrollments && s.enrollments[hash("t2")] == Enrollment(Site(), 600, false)
  {
    OpeningRun(hash);
    RunOneMore(hash, Opening(), FirstRegistration());
  }

  lemma StaffedRun(hash: string -> string)
    requires hash("t1") != hash("t2")
    ensures Feasible(hash, Staffing())
    ensures var s := Run(hash, Staffing()).state;
            Serves(hash, s, "w1", "s1") && Serves(hash, s, "w2", "s2") && "m" in s.infrastructure &&
            s.infrastructure["m"].worker == Some("w2") && s.infrastructure["m"].report == Report("online", {}, 2) &&
            Mirrors(s, "m")
  {
    FirstRun(hash);
    RunOneMore(hash, Opening() + [FirstRegistration()], SecondRegistration());
  }

  // The machine then names the second worker and shows the report of the first one.
  lemma OlderWorkerIsShown(hash: string -> string)
    requires hash("t1") != hash("t2")
    ensures var s := Run(hash, Staffing()).state;
            Feasible(hash, Staffing() + [FirstBeat()]) && Verdict(hash, s, FirstBeat()) == Done &&
            "m" in s.infrastructure && s.infrastructure["m"].worker == Some("w2") && Mirrors(s, "m") &&
            "m" in Step(hash, s, FirstBeat()).infrastructure && !Mirrors(Step(hash, s, FirstBeat()), "m")
  {
    StaffedRun(hash);
    RunIsGood(hash, Staffing());
    RunOneMore(hash, Staffing(), FirstBeat());
    HeartbeatMirrorsIff(hash, Run(hash, Staffing()).state, FirstBeat());
  }
}
