// The monitoring engine and the objects it updates: app/monitoring/incidents.py,
// deduplication.py, correlation.py, cooldown.py and engine.py. Every method does the step
// of the same name in Monitoring.
module MonitoringEngine {
  import opened Wrappers
  import opened Monitoring

  class IncidentStore {
    const maxHistory: nat
    var active: seq<Incident>
    var history: seq<Incident>
    ghost var closed: seq<Incident>

    constructor (maxHistory: nat)
      ensures View() == Store([], [], []) && this.maxHistory == maxHistory
    {
      this.maxHistory := maxHistory;
      active, history, closed := [], [], [];
    }

    ghost function View(): Store
      reads this
    {
      Store(active, history, closed)
    }

    method Add(incident: Incident)
      modifies this
      ensures View() == old(View()).(active := old(active) + [incident])
    {
      active := active + [incident];
    }

    // The place of the first open incident with a fingerprint.
    method GetByFingerprint(fingerprint: string) returns (i: nat)
      ensures i == FindOpen(active, fingerprint)
    {
      assert active[0..] == active;
      for k := 0 to |active|
        invariant FindOpen(active, fingerprint) == k + FindOpen(active[k..], fingerprint)
      {
        assert active[k..][0] == active[k] && active[k..][1..] == active[k + 1..];
        if active[k].fingerprint == fingerprint && IsOpen(active[k]) {
          return k;
        }
      }
      return |active|;
    }

    method Close(i: nat, now: real, ghost cfg: Config)
      requires i < |active| && cfg.maxHistory == maxHistory
      modifies this
      ensures View() == CloseAt(old(View()), i, now, cfg)
    {
      var incident := active[i].(state := Resolved, updatedAt := now);
      active := active[..i] + active[i + 1..];
      closed := closed + [incident];
      AddToHistory(incident);
    }

    // Append, then drop from the front while there are too many.
    method AddToHistory(incident: Incident)
      modifies this`history
      ensures history == LastOf(old(history) + [incident], maxHistory)
    {
      history := history + [incident];
      ghost var all := history;
      while |history| > maxHistory
        invariant |history| <= |all| && history == all[|all| - |history|..]
        invariant |history| < |all| ==> |history| >= maxHistory
      {
        history := history[1..];
      }
    }

    method Update(i: nat, incident: Incident)
      requires i < |active|
      modifies this`active
      ensures active == old(active)[i := incident]
    {
      active := active[i := incident];
    }

    // min(info or active, key=created_at)
    method PickVictim() returns (victim: Option<nat>)
      ensures victim == EvictionIndex(active)
    {
      victim := OldestOf(true);
      if victim.None? {
        victim := OldestOf(false);
      }
    }

    method OldestOf(infoOnly: bool) returns (best: Option<nat>)
      ensures best == Oldest(active, infoOnly, |active|)
    {
      best := None;
      for n := 0 to |active|
        invariant best == Oldest(active, infoOnly, n)
      {
        if !(infoOnly && active[n].severity != Info) {
          if best.None? || active[n].createdAt < active[best.value].createdAt {
            best := Some(n);
          }
        }
      }
    }
  }

  class CooldownTracker {
    const cfg: Config
    var lastFired: map<string, real>
    var fireCount: map<string, nat>
    var lastRecovery: map<string, real>

    constructor (cfg: Config)
      ensures this.cfg == cfg && View() == Cooldowns(map[], map[])
    {
      this.cfg := cfg;
      lastFired, fireCount, lastRecovery := map[], map[], map[];
    }

    function View(): Cooldowns
      reads this
    {
      Cooldowns(lastFired, fireCount)
    }

    method MayFire(fingerprint: string, now: real) returns (yes: bool)
      ensures yes == CanFire(View(), cfg, fingerprint, now)
    {
      var last := if fingerprint in lastFired then lastFired[fingerprint] else 0.0;
      var elapsed := now - last;
      if elapsed < cfg.cooldownSeconds {
        return false;
      }
      var count := if fingerprint in fireCount then fireCount[fingerprint] else 0;
      if count >= 3 && elapsed < cfg.escalationSeconds {
        return false;
      }
      return true;
    }

    method RecordFire(fingerprint: string, now: real)
      modifies this
      ensures View() == Fired(old(View()), fingerprint, now)
    {
      lastFired := lastFired[fingerprint := now];
      fireCount := fireCount[fingerprint := (if fingerprint in fireCount then fireCount[fingerprint] else 0) + 1];
    }

    // The event Recover. Nothing in the repository's own program records one.
    method RecordRecovery(fingerprint: string, now: real)
      modifies this
      ensures View() == Recovered(old(View()), fingerprint)
    {
      lastRecovery := lastRecovery[fingerprint := now];
      fireCount := fireCount - {fingerprint};
    }
  }

  method FindOrCreateIncident(store: IncidentStore, a: Anomaly, cfg: Config, id: string, now: real)
    returns (place: nat, isNew: bool)
    requires cfg.maxHistory == store.maxHistory
    modifies store
    ensures (store.View(), place, isNew) == FindOrCreate(old(store.View()), a, cfg, id, now)
  {
    var i := store.GetByFingerprint(a.fingerprint);
    if i < |store.active| {
      if now - store.active[i].updatedAt < cfg.cooldownSeconds {
        return i, false;
      }
      store.Update(i, Attach(store.active[i], a, now));
      return i, false;
    }
    if |store.active| >= cfg.maxConcurrent {
      var victim := store.PickVictim();
      if victim.Some? {
        store.Close(victim.value, now, cfg);
      }
    }
    place := |store.active|;
    store.Add(NewIncident(a, id, now));
    return place, true;
  }

  method CorrelateAnomaly(store: IncidentStore, a: Anomaly, cfg: Config, spare: string, now: real)
    requires cfg.maxHistory == store.maxHistory
    modifies store
    ensures store.View() == Correlate(old(store.View()), a, cfg, spare, now)
  {
    var correlated := false;
    assert store.active[0..] == store.active;
    for k := 0 to |store.active|
      invariant store.View() == old(store.View()) && !correlated
      invariant FindMatch(store.active, a, cfg) == k + FindMatch(store.active[k..], a, cfg)
    {
      assert store.active[k..][0] == store.active[k] && store.active[k..][1..] == store.active[k + 1..];
      var incident := store.active[k];
      if Matches(incident, a, cfg) {
        store.Update(k, Attach(incident, a, now));
        return;
      }
    }
    if a.severity == Critical {
      var _, _ := FindOrCreateIncident(store, a, cfg, spare, now);
    }
  }

  method PlaceInTheStore(store: IncidentStore, a: Anomaly, cfg: Config, id: string, spare: string, now: real)
    returns (place: nat, isNew: bool)
    requires cfg.maxHistory == store.maxHistory
    modifies store
    ensures (store.View(), place, isNew) == PlaceInStore(old(store.View()), a, cfg, id, spare, now)
  {
    place, isNew := FindOrCreateIncident(store, a, cfg, id, now);
    CorrelateAnomaly(store, a, cfg, spare, now);
  }

  // An anomaly as a cycle meets it: the ids it may use and the time.
  datatype Sighting = Sighting(anomaly: Anomaly, id: string, spare: string, at: real)

  function Observed(sightings: seq<Sighting>): (events: seq<Event>)
    ensures |events| == |sightings|
  {
    seq(|sightings|, i requires 0 <= i < |sightings| =>
      Observe(sightings[i].anomaly, sightings[i].id, sightings[i].spare, sightings[i].at))
  }

  // The engine after a number of events.
  function RunFrom(e: Engine, cfg: Config, events: seq<Event>): Engine {
    if events == [] then e else StepEvent(RunFrom(e, cfg, events[..|events| - 1]), cfg, events[|events| - 1])
  }

  class MonitorEngine {
    const cfg: Config
    const store: IncidentStore
    const cooldown: CooldownTracker
    var cycles: nat
    var created: nat
    var deduped: nat
    ghost var callbacks: seq<string>
    ghost var fires: seq<(string, real)>

    constructor (cfg: Config)
      ensures Valid() && View() == NEW_ENGINE && this.cfg == cfg && fresh(store) && fresh(cooldown)
    {
      this.cfg := cfg;
      store := new IncidentStore(cfg.maxHistory);
      cooldown := new CooldownTracker(cfg);
      cycles, created, deduped, callbacks, fires := 0, 0, 0, [], [];
    }

    predicate Valid() {
      store.maxHistory == cfg.maxHistory && cooldown.cfg == cfg
    }

    ghost function View(): Engine
      reads this, store, cooldown
    {
      Engine(store.View(), cooldown.View(), created, deduped, callbacks, fires)
    }

    // Steps 4 to 7 for one anomaly; `confirmed` is the incident for the callback.
    method ProcessAnomaly(a: Anomaly, id: string, spare: string, now: real) returns (confirmed: Option<string>)
      requires Valid()
      modifies this, store, cooldown
      ensures View() == Process(old(View()), a, cfg, id, spare, now)
      ensures callbacks == old(callbacks) + if confirmed.Some? then [confirmed.value] else []
      ensures cycles == old(cycles)
    {
      confirmed := None;
      var may := cooldown.MayFire(a.fingerprint, now);
      if !may {
        deduped := deduped + 1;
        return;
      }
      var i := PlaceAnomaly(a, id, spare, now);
      confirmed := ConfirmIncident(i, a, now);
    }

    method PlaceAnomaly(a: Anomaly, id: string, spare: string, now: real) returns (i: nat)
      requires Valid()
      modifies this, store, cooldown
      ensures (View(), i) == Place(old(View()), a, cfg, id, spare, now)
      ensures callbacks == old(callbacks) && cycles == old(cycles)
    {
      var isNew;
      i, isNew := PlaceInTheStore(store, a, cfg, id, spare, now);
      if isNew {
        created := created + 1;
      }
      cooldown.RecordFire(a.fingerprint, now);
      fires := fires + [(a.fingerprint, now)];
    }

    method ConfirmIncident(i: nat, a: Anomaly, now: real) returns (confirmed: Option<string>)
      modifies this, store
      ensures View() == ConfirmAt(old(View()), i, a, now)
      ensures callbacks == old(callbacks) + if confirmed.Some? then [confirmed.value] else []
      ensures cycles == old(cycles)
    {
      confirmed := None;
      if i < |store.active| {
        var incident := store.active[i];
        if incident.state == Detected && (|incident.evidence| >= 2 || a.severity == Critical) {
          store.Update(i, incident.(state := Confirmed, updatedAt := now));
          confirmed := Some(incident.id);
          callbacks := callbacks + [incident.id];
        }
      }
    }

    // One cycle over the anomalies detected in it; nothing happens while the collector is
    // unavailable.
    method RunCycle(available: bool, sightings: seq<Sighting>) returns (confirmed: seq<string>)
      requires Valid()
      modifies this, store, cooldown
      ensures cycles == old(cycles) + 1
      ensures View() == RunFrom(old(View()), cfg, if available then Observed(sightings) else [])
      ensures callbacks == old(callbacks) + confirmed
    {
      cycles := cycles + 1;
      confirmed := [];
      if !available {
        return;
      }
      ghost var events := Observed(sightings);
      for i := 0 to |sightings|
        invariant cycles == old(cycles) + 1
        invariant View() == RunFrom(old(View()), cfg, events[..i])
        invariant callbacks == old(callbacks) + confirmed
      {
        var s := sightings[i];
        AfterOneMore(old(View()), cfg, sightings, i);
        var c := ProcessAnomaly(s.anomaly, s.id, s.spare, s.at);
        if c.Some? {
          confirmed := confirmed + [c.value];
        }
      }
      assert events[..|events|] == events;
    }
  }

  lemma AfterOneMore(e: Engine, cfg: Config, sightings: seq<Sighting>, i: nat)
    requires i < |sightings|
    ensures var s, events := sightings[i], Observed(sightings);
      RunFrom(e, cfg, events[..i + 1]) == Process(RunFrom(e, cfg, events[..i]), s.anomaly, cfg, s.id, s.spare, s.at)
  {
    var s, events := sightings[i], Observed(sightings);
    var upTo := events[..i + 1];
    assert upTo[..i] == events[..i] && upTo[i] == Observe(s.anomaly, s.id, s.spare, s.at);
    assert RunFrom(e, cfg, upTo) == StepEvent(RunFrom(e, cfg, upTo[..i]), cfg, upTo[i]);
  }

  // A sequence of cycles is a run.
  lemma {:induction false} CyclesAreRuns(cfg: Config, first: seq<Event>, more: seq<Event>)
    ensures RunFrom(Run(cfg, first), cfg, more) == Run(cfg, first + more)
  {
    if more == [] {
      assert first + more == first;
    } else {
      var n := |more| - 1;
      CyclesAreRuns(cfg, first, more[..n]);
      var all := first + more;
      assert all[..|all| - 1] == first + more[..n] && all[|all| - 1] == more[n];
      RunOneMore(cfg, all);
    }
  }

  lemma RunOneMore(cfg: Config, events: seq<Event>)
    requires events != []
    ensures Run(cfg, events) == StepEvent(Run(cfg, events[..|events| - 1]), cfg, events[|events| - 1])
  {
  }
}
