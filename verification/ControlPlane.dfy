// Organizations, their projects and machines, and the single-use enrollment of
// workers on those machines.
module ControlPlane {
  import opened Wrappers
  import Text

  datatype Project = Project(organization: string, name: string, description: string)

  // Where a machine, a worker or an enrollment belongs.
  datatype Scope = Scope(organization: string, project: string, infrastructure: string)

  // What a worker reports about its machine.
  datatype Report = Report(status: string, capabilities: set<string>, lastSeen: int)

  datatype Infrastructure = Infrastructure(
    organization: string, project: string, name: string, kind: string, worker: Option<string>, report: Report)

  datatype Build = Build(version: string, platform: string, hostname: string)

  datatype Worker = Worker(scope: Scope, name: string, build: Build, secretHash: string, report: Report)

  // Times are in seconds.
  datatype Enrollment = Enrollment(scope: Scope, expires: int, used: bool)

  datatype State = State(
    organizations: map<string, string>,
    projects: map<string, Project>,
    infrastructure: map<string, Infrastructure>,
    workers: map<string, Worker>,
    enrollments: map<string, Enrollment>)

  const NO_RECORDS: State := State(map[], map[], map[], map[], map[])

  datatype Error = NameRequired | OrganizationNotFound | ProjectNotAvailable | ScopeMismatch |
                   InvalidEnrollment | AuthenticationFailed

  datatype Reply = Done | Refused(error: Error)

  // Identifiers and tokens are drawn by the caller of a step.
  datatype Event =
    | CreateOrganization(id: string, name: string)
    | CreateProject(id: string, organization: string, name: string, description: string)
    | CreateInfrastructure(id: string, organization: string, project: string, name: string, kind: string)
    | CreateEnrollment(token: string, scope: Scope, minutes: int, now: int)
    | RegisterWorker(token: string, id: string, secret: string, name: string, build: Build,
                     capabilities: set<string>, now: int)
    | Heartbeat(id: string, secret: string, build: Build, report: Report)

  predicate Resolves(s: State, scope: Scope) {
    scope.infrastructure in s.infrastructure &&
    s.infrastructure[scope.infrastructure].organization == scope.organization &&
    s.infrastructure[scope.infrastructure].project == scope.project
  }

  function Lifetime(minutes: int): int { if minutes > 60 then 60 else if minutes < 1 then 1 else minutes }

  // Whether the event is carried out, and otherwise why not.
  function Verdict(hash: string -> string, s: State, e: Event): Reply {
    match e
    case CreateOrganization(_, name) => if Text.Strip(name) == [] then Refused(NameRequired) else Done
    case CreateProject(_, organization, _, _) =>
      if organization !in s.organizations then Refused(OrganizationNotFound) else Done
    case CreateInfrastructure(_, organization, project, _, _) =>
      if project !in s.projects || s.projects[project].organization != organization
      then Refused(ProjectNotAvailable) else Done
    case CreateEnrollment(_, scope, _, _) => if !Resolves(s, scope) then Refused(ScopeMismatch) else Done
    case RegisterWorker(token, _, _, _, _, _, now) =>
      var key := hash(token);
      if key !in s.enrollments || s.enrollments[key].used || s.enrollments[key].expires <= now
      then Refused(InvalidEnrollment) else Done
    case Heartbeat(id, secret, _, _) =>
      if id !in s.workers || s.workers[id].secretHash != hash(secret) then Refused(AuthenticationFailed) else Done
  }

  function Reporting(s: State, infrastructure: string, report: Report, worker: Option<string>)
      : map<string, Infrastructure>
  {
    if infrastructure in s.infrastructure then
      var i := s.infrastructure[infrastructure];
      s.infrastructure[infrastructure := i.(report := report, worker := if worker.Some? then worker else i.worker)]
    else s.infrastructure
  }

  function Step(hash: string -> string, s: State, e: Event): State {
    if Verdict(hash, s, e) != Done then s
    else
      match e
      case CreateOrganization(id, name) => s.(organizations := s.organizations[id := Text.Strip(name)])
      case CreateProject(id, organization, name, description) =>
        s.(projects := s.projects[id := Project(organization, Text.Strip(name), description)])
      case CreateInfrastructure(id, organization, project, name, kind) =>
        s.(infrastructure := s.infrastructure[
          id := Infrastructure(organization, project, Text.Strip(name), kind, None, Report("offline", {}, 0))])
      case CreateEnrollment(token, scope, minutes, now) =>
        s.(enrollments := s.enrollments[hash(token) := Enrollment(scope, now + 60 * Lifetime(minutes), false)])
      case RegisterWorker(token, id, secret, name, build, capabilities, now) =>
        var enrollment := s.enrollments[hash(token)];
        var report := Report("online", capabilities, now);
        s.(enrollments := s.enrollments[hash(token) := enrollment.(used := true)],
           workers := s.workers[id := Worker(enrollment.scope, name, build, hash(secret), report)],
           infrastructure := Reporting(s, enrollment.scope.infrastructure, report, Some(id)))
      case Heartbeat(id, secret, build, report) =>
        var worker := s.workers[id].(build := build, report := report);
        s.(workers := s.workers[id := worker],
           infrastructure := Reporting(s, worker.scope.infrastructure, report, None))
  }

  // ------------------------------------------------------------------
  // References stay inside one organization
  // ------------------------------------------------------------------

  predicate ProjectResolves(s: State, p: Project) { p.organization in s.organizations }

  predicate MachineResolves(s: State, id: string, i: Infrastructure) {
    i.project in s.projects && s.projects[i.project].organization == i.organization &&
    (i.worker.Some? ==> i.worker.value in s.workers && s.workers[i.worker.value].scope.infrastructure == id)
  }

  predicate Good(s: State) {
    (forall id :: id in s.projects ==> ProjectResolves(s, s.projects[id])) &&
    (forall id :: id in s.infrastructure ==> MachineResolves(s, id, s.infrastructure[id])) &&
    (forall id :: id in s.workers ==> Resolves(s, s.workers[id].scope)) &&
    (forall key :: key in s.enrollments ==> Resolves(s, s.enrollments[key].scope))
  }

  // Identifiers and tokens have not been used before.
  predicate Fresh(hash: string -> string, s: State, e: Event) {
    match e
    case CreateOrganization(id, _) => id !in s.organizations
    case CreateProject(id, _, _, _) => id !in s.projects
    case CreateInfrastructure(id, _, _, _, _) => id !in s.infrastructure
    case CreateEnrollment(token, _, _, _) => hash(token) !in s.enrollments
    case RegisterWorker(_, id, _, _, _, _, _) => id !in s.workers
    case Heartbeat(_, _, _, _) => true
  }

  lemma ScopeStays(hash: string -> string, s: State, e: Event, scope: Scope)
    requires Fresh(hash, s, e) && Resolves(s, scope)
    ensures Resolves(Step(hash, s, e), scope)
  {}

  lemma TablesGrow(hash: string -> string, s: State, e: Event)
    requires Fresh(hash, s, e)
    ensures forall p :: p in s.projects ==> p in Step(hash, s, e).projects && Step(hash, s, e).projects[p] == s.projects[p]
    ensures forall w :: w in s.workers ==>
              w in Step(hash, s, e).workers && Step(hash, s, e).workers[w].scope == s.workers[w].scope
  {}

  lemma MachineStays(hash: string -> string, s: State, e: Event, id: string)
    requires Good(s) && Fresh(hash, s, e) && id in Step(hash, s, e).infrastructure
    ensures MachineResolves(Step(hash, s, e), id, Step(hash, s, e).infrastructure[id])
  {
    TablesGrow(hash, s, e);
    if id in s.infrastructure { assert MachineResolves(s, id, s.infrastructure[id]); }
  }

  // No step, taken or refused, breaks a reference.
  lemma StepKeepsGood(hash: string -> string, s: State, e: Event)
    requires Good(s) && Fresh(hash, s, e)
    ensures Good(Step(hash, s, e))
  {
    var s' := Step(hash, s, e);
    forall id | id in s'.projects ensures ProjectResolves(s', s'.projects[id]) {
    }
    forall id | id in s'.infrastructure ensures MachineResolves(s', id, s'.infrastructure[id]) {
      MachineStays(hash, s, e, id);
    }
    forall id | id in s'.workers ensures Resolves(s', s'.workers[id].scope) {
      ScopeStays(hash, s, e, s'.workers[id].scope);
    }
    forall key | key in s'.enrollments ensures Resolves(s', s'.enrollments[key].scope) {
      ScopeStays(hash, s, e, s'.enrollments[key].scope);
    }
  }

  // The organization an event acts in.
  function Actor(hash: string -> string, s: State, e: Event): Option<string> {
    match e
    case CreateOrganization(id, _) => Some(id)
    case CreateProject(_, organization, _, _) => Some(organization)
    case CreateInfrastructure(_, organization, _, _, _) => Some(organization)
    case CreateEnrollment(_, scope, _, _) => Some(scope.organization)
    case RegisterWorker(token, _, _, _, _, _, _) =>
      if hash(token) in s.enrollments then Some(s.enrollments[hash(token)].scope.organization) else None
    case Heartbeat(id, _, _, _) => if id in s.workers then Some(s.workers[id].scope.organization) else None
  }

  function MachineOf(s: State, organization: string, id: string): Option<Infrastructure> {
    if id in s.infrastructure && s.infrastructure[id].organization == organization then Some(s.infrastructure[id])
    else None
  }

  function WorkerOf(s: State, organization: string, id: string): Option<Worker> {
    if id in s.workers && s.workers[id].scope.organization == organization then Some(s.workers[id]) else None
  }

  function ProjectOf(s: State, organization: string, id: string): Option<Project> {
    if id in s.projects && s.projects[id].organization == organization then Some(s.projects[id]) else None
  }

  function EnrollmentOf(s: State, organization: string, key: string): Option<Enrollment> {
    if key in s.enrollments && s.enrollments[key].scope.organization == organization then Some(s.enrollments[key])
    else None
  }

  lemma OtherWorker(hash: string -> string, s: State, e: Event, organization: string, id: string)
    requires Fresh(hash, s, e) && Actor(hash, s, e) != Some(organization)
    ensures WorkerOf(Step(hash, s, e), organization, id) == WorkerOf(s, organization, id)
  {}

  lemma OtherProject(hash: string -> string, s: State, e: Event, organization: string, id: string)
    requires Fresh(hash, s, e) && Actor(hash, s, e) != Some(organization)
    ensures ProjectOf(Step(hash, s, e), organization, id) == ProjectOf(s, organization, id)
  {}

  // An event in one organization leaves the projects, machines, workers and enrollments of
  // every other alone.
  lemma OthersUntouched(hash: string -> string, s: State, e: Event, organization: string, id: string)
    requires Good(s) && Fresh(hash, s, e) && Actor(hash, s, e) != Some(organization)
    ensures ProjectOf(Step(hash, s, e), organization, id) == ProjectOf(s, organization, id)
    ensures MachineOf(Step(hash, s, e), organization, id) == MachineOf(s, organization, id)
    ensures WorkerOf(Step(hash, s, e), organization, id) == WorkerOf(s, organization, id)
    ensures EnrollmentOf(Step(hash, s, e), organization, id) == EnrollmentOf(s, organization, id)
  {
    OtherProject(hash, s, e, organization, id);
    OtherWorker(hash, s, e, organization, id);
  }

  // ------------------------------------------------------------------
  // The service
  // ------------------------------------------------------------------

  class ControlPlaneService {
    const hash: string -> string
    var organizations: map<string, string>
    var projects: map<string, Project>
    var infrastructure: map<string, Infrastructure>
    var workers: map<string, Worker>
    var enrollments: map<string, Enrollment>

    ghost function View(): State
      reads this
    {
      State(organizations, projects, infrastructure, workers, enrollments)
    }

    constructor (hash: string -> string)
      ensures this.hash == hash && View() == NO_RECORDS && Good(View())
    {
      this.hash := hash;
      organizations, projects, infrastructure, workers, enrollments := map[], map[], map[], map[], map[];
    }

    method CreateOrganization(id: string, name: string) returns (reply: Reply)
      requires Good(View()) && id !in organizations
      modifies this`organizations
      ensures var e := Event.CreateOrganization(id, name);
              reply == Verdict(hash, old(View()), e) && View() == Step(hash, old(View()), e)
      ensures Good(View())
    {
      StepKeepsGood(hash, View(), Event.CreateOrganization(id, name));
      var stripped := Text.Strip(name);
      if stripped == [] {
        return Refused(NameRequired);
      }
      organizations := organizations[id := stripped];
      return Done;
    }

    method CreateProject(id: string, organization: string, name: string, description: string)
        returns (reply: Reply)
      requires Good(View()) && id !in projects
      modifies this`projects
      ensures var e := Event.CreateProject(id, organization, name, description);
              reply == Verdict(hash, old(View()), e) && View() == Step(hash, old(View()), e)
      ensures Good(View())
    {
      StepKeepsGood(hash, View(), Event.CreateProject(id, organization, name, description));
      if organization !in organizations {
        return Refused(OrganizationNotFound);
      }
      projects := projects[id := Project(organization, Text.Strip(name), description)];
      return Done;
    }

    method CreateInfrastructure(id: string, organization: string, project: string, name: string, kind: string)
        returns (reply: Reply)
      requires Good(View()) && id !in infrastructure
      modifies this`infrastructure
      ensures var e := Event.CreateInfrastructure(id, organization, project, name, kind);
              reply == Verdict(hash, old(View()), e) && View() == Step(hash, old(View()), e)
      ensures Good(View())
    {
      StepKeepsGood(hash, View(), Event.CreateInfrastructure(id, organization, project, name, kind));
      if project !in projects || projects[project].organization != organization {
        return Refused(ProjectNotAvailable);
      }
      infrastructure := infrastructure[
        id := Infrastructure(organization, project, Text.Strip(name), kind, None, Report("offline", {}, 0))];
      return Done;
    }

    // `token` is the one drawn for this enrollment; only its hash is kept.
    method CreateEnrollment(token: string, scope: Scope, minutes: int, now: int) returns (reply: Reply)
      requires Good(View()) && hash(token) !in enrollments
      modifies this`enrollments
      ensures var e := Event.CreateEnrollment(token, scope, minutes, now);
              reply == Verdict(hash, old(View()), e) && View() == Step(hash, old(View()), e)
      ensures Good(View())
    {
      StepKeepsGood(hash, View(), Event.CreateEnrollment(token, scope, minutes, now));
      if scope.infrastructure !in infrastructure {
        return Refused(ScopeMismatch);
      }
      var i := infrastructure[scope.infrastructure];
      if (i.organization, i.project) != (scope.organization, scope.project) {
        return Refused(ScopeMismatch);
      }
      enrollments := enrollments[hash(token) := Enrollment(scope, now + 60 * Lifetime(minutes), false)];
      return Done;
    }

    method RegisterWorker(token: string, id: string, secret: string, name: string, build: Build,
                          capabilities: set<string>, now: int) returns (reply: Reply)
      requires Good(View()) && id !in workers
      modifies this`enrollments, this`workers, this`infrastructure
      ensures var e := Event.RegisterWorker(token, id, secret, name, build, capabilities, now);
              reply == Verdict(hash, old(View()), e) && View() == Step(hash, old(View()), e)
      ensures Good(View())
    {
      StepKeepsGood(hash, View(), Event.RegisterWorker(token, id, secret, name, build, capabilities, now));
      var key := hash(token);
      if key !in enrollments {
        return Refused(InvalidEnrollment);
      }
      var enrollment := enrollments[key];
      if enrollment.used || enrollment.expires <= now {
        return Refused(InvalidEnrollment);
      }
      assert Resolves(View(), enrollment.scope);
      enrollments := enrollments[key := enrollment.(used := true)];
      var report := Report("online", capabilities, now);
      workers := workers[id := Worker(enrollment.scope, name, build, hash(secret), report)];
      var machine := infrastructure[enrollment.scope.infrastructure];
      infrastructure := infrastructure[
        enrollment.scope.infrastructure := machine.(worker := Some(id), report := report)];
      return Done;
    }

    method Heartbeat(id: string, secret: string, build: Build, report: Report) returns (reply: Reply)
      requires Good(View())
      modifies this`workers, this`infrastructure
      ensures var e := Event.Heartbeat(id, secret, build, report);
              reply == Verdict(hash, old(View()), e) && View() == Step(hash, old(View()), e)
      ensures Good(View())
    {
      StepKeepsGood(hash, View(), Event.Heartbeat(id, secret, build, report));
      if id !in workers || workers[id].secretHash != hash(secret) {
        return Refused(AuthenticationFailed);
      }
      var worker := workers[id].(build := build, report := report);
      assert Resolves(View(), worker.scope);
      workers := workers[id := worker];
      var machine := infrastructure[worker.scope.infrastructure];
      infrastructure := infrastructure[worker.scope.infrastructure := machine.(report := report)];
      return Done;
    }
  }
}
