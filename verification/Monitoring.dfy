// The incident pipeline of app/monitoring as steps on values: cooldown, deduplication with
// eviction, correlation and confirmation. MonitoringEngine does these steps on objects.
module Monitoring {
  import opened Wrappers

  datatype Severity = Info | Warning | Critical

  function Rank(s: Severity): nat {
    match s case Info => 0 case Warning => 1 case Critical => 2
  }

  function Worse(a: Severity, b: Severity): Severity {
    if Rank(b) > Rank(a) then b else a
  }

  datatype Kind =
    | ContainerMemorySpike | ContainerRestartLoop | OomDetected | CrashIndicator | MemoryHigh
    | ContainerCpuSpike | ServiceFailed | ContainerUnhealthy | OtherKind(name: string)

  // The fingerprint is fixed by host, component, kind and metric.
  datatype Anomaly = Anomaly(
    id: string, timestamp: real, host: string, kind: Kind, fingerprint: string,
    severity: Severity, evidence: seq<string>)

  datatype State = Detected | Investigating | Confirmed | Mitigating | Resolved | Failed | Suppressed | Closed

  // `anomalies` holds the attached anomalies themselves in place of their ids.
  datatype Incident = Incident(
    id: string, createdAt: real, updatedAt: real, state: State, severity: Severity, host: string,
    kind: Kind, fingerprint: string, evidence: seq<string>, anomalies: seq<Anomaly>)

  datatype Config = Config(
    cooldownSeconds: real, escalationSeconds: real, maxConcurrent: int, windowSeconds: real, maxHistory: nat)

  // `closed` is the full log of closed incidents, of which `history` keeps the end.
  datatype Store = Store(active: seq<Incident>, history: seq<Incident>, closed: seq<Incident>)

  // ---- Incidents (incidents.py) ----

  predicate IsOpen(i: Incident) {
    i.state != Closed && i.state != Resolved && i.state != Suppressed
  }

  function NewIncident(a: Anomaly, id: string, now: real): Incident {
    Incident(id, now, now, Detected, a.severity, a.host, a.kind, a.fingerprint, a.evidence, [a])
  }

  function Attach(i: Incident, a: Anomaly, now: real): Incident {
    i.(anomalies := i.anomalies + [a], evidence := i.evidence + a.evidence,
       severity := Worse(i.severity, a.severity), updatedAt := now)
  }

  // The first open incident with a fingerprint; the number of incidents if there is none.
  function FindOpen(active: seq<Incident>, fingerprint: string): (i: nat)
    ensures i <= |active|
    ensures i < |active| ==> active[i].fingerprint == fingerprint && IsOpen(active[i])
    ensures forall j | 0 <= j < i :: !(active[j].fingerprint == fingerprint && IsOpen(active[j]))
  {
    if active == [] || (active[0].fingerprint == fingerprint && IsOpen(active[0])) then 0
    else 1 + FindOpen(active[1..], fingerprint)
  }

  function LastOf<T>(s: seq<T>, n: nat): (r: seq<T>)
    ensures |r| <= n && |r| <= |s|
  {
    if |s| <= n then s else s[|s| - n..]
  }

  // The list without its i-th entry.
  function Without<T>(s: seq<T>, i: nat): (r: seq<T>)
    requires i < |s|
    ensures |r| == |s| - 1
    ensures forall j | 0 <= j < |r| :: r[j] == if j < i then s[j] else s[j + 1]
  {
    s[..i] + s[i + 1..]
  }

  function CloseAt(s: Store, i: nat, now: real, cfg: Config): Store
    requires i < |s.active|
  {
    var done := s.active[i].(state := Resolved, updatedAt := now);
    Store(Without(s.active, i), LastOf(s.history + [done], cfg.maxHistory), s.closed + [done])
  }

  // ---- Deduplication (deduplication.py) ----

  // The oldest of the first n incidents (of the info ones only, if asked); the first of
  // several equally old ones.
  function Oldest(active: seq<Incident>, infoOnly: bool, n: nat): (r: Option<nat>)
    requires n <= |active|
    ensures r.Some? ==> r.value < n
  {
    if n == 0 then None
    else
      var best := Oldest(active, infoOnly, n - 1);
      if infoOnly && active[n - 1].severity != Info then best
      else if best.Some? && active[best.value].createdAt <= active[n - 1].createdAt then best
      else Some(n - 1)
  }

  function EvictionIndex(active: seq<Incident>): (r: Option<nat>)
    ensures r.Some? ==> r.value < |active|
  {
    var info := Oldest(active, true, |active|);
    if info.Some? then info else Oldest(active, false, |active|)
  }

  function MakeRoom(s: Store, cfg: Config, now: real): Store {
    var victim := EvictionIndex(s.active);
    if |s.active| < cfg.maxConcurrent || victim.None? then s else CloseAt(s, victim.value, now, cfg)
  }

  // find_or_create_incident: the store, the incident's place in it, and whether it is new.
  function FindOrCreate(s: Store, a: Anomaly, cfg: Config, id: string, now: real): (Store, nat, bool) {
    var i := FindOpen(s.active, a.fingerprint);
    if i < |s.active| then
      if now - s.active[i].updatedAt < cfg.cooldownSeconds then (s, i, false)
      else (s.(active := s.active[i := Attach(s.active[i], a, now)]), i, false)
    else
      var room := MakeRoom(s, cfg, now);
      (room.(active := room.active + [NewIncident(a, id, now)]), |room.active|, true)
  }

  // ---- Correlation (correlation.py) ----

  // The rule table: b is among the types correlated with a.
  predicate Correlates(a: Kind, b: Kind) {
    match a
    case ContainerMemorySpike => b == ContainerRestartLoop || b == OomDetected || b == CrashIndicator
    case ContainerRestartLoop => b == ContainerMemorySpike || b == OomDetected || b == ContainerUnhealthy
    case OomDetected => b == ContainerMemorySpike || b == ContainerRestartLoop || b == CrashIndicator
    case CrashIndicator => b == OomDetected || b == ContainerRestartLoop
    case MemoryHigh => b == OomDetected || b == ContainerMemorySpike
    case ContainerCpuSpike => b == ContainerRestartLoop
    case ServiceFailed => b == CrashIndicator
    case _ => false
  }

  function Abs(x: real): real {
    if x < 0.0 then -x else x
  }

  predicate Matches(i: Incident, a: Anomaly, cfg: Config) {
    && i.state != Closed && i.state != Suppressed
    && (Correlates(i.kind, a.kind) || Correlates(a.kind, i.kind))
    && Abs(a.timestamp - i.createdAt) < cfg.windowSeconds
    && a.host == i.host
  }

  function FindMatch(active: seq<Incident>, a: Anomaly, cfg: Config): (i: nat)
    ensures i <= |active|
    ensures i < |active| ==> Matches(active[i], a, cfg)
    ensures forall j | 0 <= j < i :: !Matches(active[j], a, cfg)
  {
    if active == [] || Matches(active[0], a, cfg) then 0 else 1 + FindMatch(active[1..], a, cfg)
  }

  // correlate_anomalies for one anomaly.
  function Correlate(s: Store, a: Anomaly, cfg: Config, id: string, now: real): Store {
    var i := FindMatch(s.active, a, cfg);
    if i < |s.active| then s.(active := s.active[i := Attach(s.active[i], a, now)])
    else if a.severity == Critical then FindOrCreate(s, a, cfg, id, now).0
    else s
  }

  // ---- Cooldown (cooldown.py) ----

  datatype Cooldowns = Cooldowns(lastFired: map<string, real>, fireCount: map<string, nat>)

  function LastFired(c: Cooldowns, fp: string): real {
    if fp in c.lastFired then c.lastFired[fp] else 0.0
  }

  function FireCount(c: Cooldowns, fp: string): nat {
    if fp in c.fireCount then c.fireCount[fp] else 0
  }

  predicate CanFire(c: Cooldowns, cfg: Config, fp: string, now: real) {
    var elapsed := now - LastFired(c, fp);
    elapsed >= cfg.cooldownSeconds && !(FireCount(c, fp) >= 3 && elapsed < cfg.escalationSeconds)
  }

  function Fired(c: Cooldowns, fp: string, now: real): Cooldowns {
    Cooldowns(c.lastFired[fp := now], c.fireCount[fp := FireCount(c, fp) + 1])
  }

  function Recovered(c: Cooldowns, fp: string): Cooldowns {
    c.(fireCount := c.fireCount - {fp})
  }

  // ---- The engine (engine.py) ----

  // `callbacks` lists the incidents handed to the confirmation callback, `fires` the fires
  // recorded, both in order.
  datatype Engine = Engine(
    store: Store, cooldowns: Cooldowns, created: nat, deduped: nat,
    callbacks: seq<string>, fires: seq<(string, real)>)

  const NEW_ENGINE := Engine(Store([], [], []), Cooldowns(map[], map[]), 0, 0, [], [])

  predicate ToConfirm(i: Incident, a: Anomaly) {
    i.state == Detected && (|i.evidence| >= 2 || a.severity == Critical)
  }

  // Step 6 and 7: the incident at place i is confirmed and handed to the callback.
  function ConfirmAt(e: Engine, i: nat, a: Anomaly, now: real): Engine {
    if i < |e.store.active| && ToConfirm(e.store.active[i], a) then
      var incident := e.store.active[i];
      e.(store := e.store.(active := e.store.active[i := incident.(state := Confirmed, updatedAt := now)]),
         callbacks := e.callbacks + [incident.id])
    else e
  }

  function PlaceInStore(s: Store, a: Anomaly, cfg: Config, id: string, spare: string, now: real): (Store, nat, bool) {
    var (found, i, isNew) := FindOrCreate(s, a, cfg, id, now);
    (Correlate(found, a, cfg, spare, now), i, isNew)
  }

  // Steps 4 and 5: deduplication and correlation of an anomaly that may fire, and the place
  // of its incident. `id` and `spare` are the ids a new incident would get in the two steps.
  function Place(e: Engine, a: Anomaly, cfg: Config, id: string, spare: string, now: real): (Engine, nat) {
    var (store, i, isNew) := PlaceInStore(e.store, a, cfg, id, spare, now);
    (e.(store := store,
        cooldowns := Fired(e.cooldowns, a.fingerprint, now),
        created := if isNew then e.created + 1 else e.created,
        fires := e.fires + [(a.fingerprint, now)]),
     i)
  }

  // Steps 4 to 7 of run_cycle for one anomaly.
  function Process(e: Engine, a: Anomaly, cfg: Config, id: string, spare: string, now: real): Engine {
    if !CanFire(e.cooldowns, cfg, a.fingerprint, now) then e.(deduped := e.deduped + 1)
    else
      var (placed, i) := Place(e, a, cfg, id, spare, now);
      ConfirmAt(placed, i, a, now)
  }

  // What else may happen to the engine between two anomalies: an operator closes, resolves
  // or suppresses the incident at a place in the store, or a component recovers.
  datatype Event =
    | Observe(anomaly: Anomaly, id: string, spare: string, at: real)
    | CloseIncident(place: nat, at: real)
    | ResolveIncident(place: nat, at: real)
    | SuppressIncident(place: nat, at: real)
    | Recover(fingerprint: string)

  function SetState(s: Store, i: nat, state: State, now: real): Store {
    if i < |s.active| then s.(active := s.active[i := s.active[i].(state := state, updatedAt := now)]) else s
  }

  function StepEvent(e: Engine, cfg: Config, event: Event): Engine {
    match event
    case Observe(a, id, spare, now) => Process(e, a, cfg, id, spare, now)
    case CloseIncident(i, now) => if i < |e.store.active| then e.(store := CloseAt(e.store, i, now, cfg)) else e
    case ResolveIncident(i, now) => e.(store := SetState(e.store, i, Resolved, now))
    case SuppressIncident(i, now) => e.(store := SetState(e.store, i, Suppressed, now))
    case Recover(fp) => e.(cooldowns := Recovered(e.cooldowns, fp))
  }

  function Run(cfg: Config, events: seq<Event>): Engine {
    if events == [] then NEW_ENGINE else StepEvent(Run(cfg, events[..|events| - 1]), cfg, events[|events| - 1])
  }
}
