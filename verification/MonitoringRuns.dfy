// What the incident pipeline keeps along every run.
module MonitoringRuns {
  import opened Wrappers
  import opened Monitoring

  function Max(a: int, b: int): int {
    if a > b then a else b
  }

  // ---- Eviction ----

  lemma {:induction false} OldestMeans(active: seq<Incident>, infoOnly: bool, n: nat)
    requires n <= |active|
    ensures match Oldest(active, infoOnly, n)
      case None => n == 0 || (infoOnly && forall j | 0 <= j < n :: active[j].severity != Info)
      case Some(i) =>
        && (infoOnly ==> active[i].severity == Info)
        && (forall j | 0 <= j < n && (infoOnly ==> active[j].severity == Info) ::
              active[i].createdAt <= active[j].createdAt && (j < i ==> active[i].createdAt < active[j].createdAt))
  {
    if n > 0 {
      OldestMeans(active, infoOnly, n - 1);
    }
  }

  // A full store loses its oldest info incident, and its oldest incident of all only when
  // no info incident is left.
  lemma EvictionPrefersInfo(active: seq<Incident>)
    requires active != []
    ensures var v := EvictionIndex(active);
      && v.Some?
      && (active[v.value].severity != Info ==> forall j | 0 <= j < |active| :: active[j].severity != Info)
      && (forall j | 0 <= j < |active| && active[j].severity == active[v.value].severity ::
            active[v.value].createdAt <= active[j].createdAt)
  {
    OldestMeans(active, true, |active|);
    OldestMeans(active, false, |active|);
  }

  // ---- The invariant ----

  function MaxSeverity(anomalies: seq<Anomaly>): Severity
    requires anomalies != []
  {
    var n := |anomalies| - 1;
    if n == 0 then anomalies[0].severity else Worse(MaxSeverity(anomalies[..n]), anomalies[n].severity)
  }

  function AllEvidence(anomalies: seq<Anomaly>): seq<string> {
    if anomalies == [] then []
    else AllEvidence(anomalies[..|anomalies| - 1]) + anomalies[|anomalies| - 1].evidence
  }

  // An incident sums up the anomalies attached to it: the worst severity, their evidence in
  // order of attachment, the fingerprint of the first.
  ghost predicate SumsUp(i: Incident) {
    && i.anomalies != []
    && i.severity == MaxSeverity(i.anomalies)
    && i.evidence == AllEvidence(i.anomalies)
    && i.fingerprint == i.anomalies[0].fingerprint
  }

  ghost predicate OneOpenEach(active: seq<Incident>) {
    forall i, j | 0 <= i < j < |active| && IsOpen(active[i]) && IsOpen(active[j]) ::
      active[i].fingerprint != active[j].fingerprint
  }

  ghost predicate DistinctIds(s: seq<Incident>) {
    forall i, j | 0 <= i < j < |s| :: s[i].id != s[j].id
  }

  ghost predicate Disjoint(s: seq<Incident>, t: seq<Incident>) {
    forall i, j | 0 <= i < |s| && 0 <= j < |t| :: s[i].id != t[j].id
  }

  ghost predicate StoreGood(s: Store, cfg: Config) {
    && OneOpenEach(s.active)
    && |s.active| <= Max(1, cfg.maxConcurrent)
    && (forall i | 0 <= i < |s.active| :: SumsUp(s.active[i]))
    && (forall i | 0 <= i < |s.closed| :: SumsUp(s.closed[i]) && s.closed[i].state == Resolved)
    && DistinctIds(s.active) && DistinctIds(s.closed) && Disjoint(s.active, s.closed)
    && s.history == LastOf(s.closed, cfg.maxHistory)
  }

  ghost predicate Unused(s: Store, id: string) {
    && (forall i | 0 <= i < |s.active| :: s.active[i].id != id)
    && (forall i | 0 <= i < |s.closed| :: s.closed[i].id != id)
  }

  // A merely detected incident has not been handed to the callback, a confirmed one has.
  ghost predicate CallsMatch(s: Store, callbacks: seq<string>) {
    forall i | 0 <= i < |s.active| ::
      && (s.active[i].state == Detected ==> s.active[i].id !in callbacks)
      && (s.active[i].state == Confirmed ==> s.active[i].id in callbacks)
  }

  // ---- Single changes of the store ----

  // The new value of one incident: same identity, still the sum of its anomalies, and not
  // reopened.
  ghost predicate Evolves(before: Incident, after: Incident) {
    && after.id == before.id && after.fingerprint == before.fingerprint
    && (IsOpen(after) ==> IsOpen(before))
    && SumsUp(after)
  }

  lemma AttachEvolves(i: Incident, a: Anomaly, now: real)
    requires SumsUp(i)
    ensures Evolves(i, Attach(i, a, now))
  {
    var all := i.anomalies + [a];
    assert all[..|i.anomalies|] == i.anomalies;
  }

  lemma ReplaceKeeps(s: Store, cfg: Config, i: nat, after: Incident, callbacks: seq<string>)
    requires StoreGood(s, cfg) && i < |s.active| && Evolves(s.active[i], after) && CallsMatch(s, callbacks)
    requires after.state == Detected || after.state == Confirmed ==> s.active[i].state == after.state
    ensures var t := s.(active := s.active[i := after]);
      && StoreGood(t, cfg) && CallsMatch(t, callbacks)
      && (forall id :: Unused(s, id) <==> Unused(t, id))
  {
    var t := s.(active := s.active[i := after]);
    assert forall j | 0 <= j < |s.active| :: t.active[j].id == s.active[j].id;
  }

  lemma LastOfLast<T>(s: seq<T>, x: T, n: nat)
    ensures LastOf(LastOf(s, n) + [x], n) == LastOf(s + [x], n)
  {
  }

  lemma CloseKeepsGood(s: Store, cfg: Config, i: nat, now: real)
    requires StoreGood(s, cfg) && i < |s.active|
    ensures var t := CloseAt(s, i, now, cfg);
      StoreGood(t, cfg) && |t.active| == |s.active| - 1 && |t.closed| == |s.closed| + 1
  {
    var t := CloseAt(s, i, now, cfg);
    LastOfLast(s.closed, t.closed[|s.closed|], cfg.maxHistory);
    WithoutKeeps(s.active, i);
    assert forall j | 0 <= j < |t.active| :: t.active[j].id != s.active[i].id;
  }

  lemma CloseKeepsCalls(s: Store, cfg: Config, i: nat, now: real, callbacks: seq<string>)
    requires i < |s.active| && CallsMatch(s, callbacks)
    ensures CallsMatch(CloseAt(s, i, now, cfg), callbacks)
  {
    var t := CloseAt(s, i, now, cfg);
    forall j | 0 <= j < |t.active|
      ensures t.active[j] == s.active[if j < i then j else j + 1]
    {}
  }

  lemma CloseKeeps(s: Store, cfg: Config, i: nat, now: real, callbacks: seq<string>)
    requires StoreGood(s, cfg) && i < |s.active| && CallsMatch(s, callbacks)
    ensures var t := CloseAt(s, i, now, cfg);
      && StoreGood(t, cfg) && |t.active| == |s.active| - 1 && |t.closed| == |s.closed| + 1
      && CallsMatch(t, callbacks)
      && (forall id :: Unused(s, id) <==> Unused(t, id))
  {
    CloseKeepsGood(s, cfg, i, now);
    CloseKeepsCalls(s, cfg, i, now, callbacks);
    CloseKeepsIds(s, cfg, i, now);
  }

  lemma WithoutKeeps(active: seq<Incident>, i: nat)
    requires i < |active| && OneOpenEach(active) && DistinctIds(active)
    ensures OneOpenEach(Without(active, i)) && DistinctIds(Without(active, i))
    ensures forall j | 0 <= j < |active| - 1 :: Without(active, i)[j].id != active[i].id
  {
  }

  ghost predicate HasId(s: seq<Incident>, id: string) {
    exists j | 0 <= j < |s| :: s[j].id == id
  }

  lemma WithoutIds(active: seq<Incident>, i: nat, id: string)
    requires i < |active|
    ensures HasId(active, id) <==> HasId(Without(active, i), id) || active[i].id == id
  {
    var r := Without(active, i);
    if j :| 0 <= j < |active| && active[j].id == id {
      if j < i { assert r[j].id == id; }
      if j > i { assert r[j - 1].id == id; }
    }
  }

  lemma CloseKeepsIds(s: Store, cfg: Config, i: nat, now: real)
    requires i < |s.active|
    ensures forall id :: Unused(s, id) <==> Unused(CloseAt(s, i, now, cfg), id)
  {
    var t := CloseAt(s, i, now, cfg);
    forall id ensures Unused(s, id) <==> Unused(t, id) {
      WithoutIds(s.active, i, id);
      assert t.closed == s.closed + [t.closed[|s.closed|]] && t.closed[|s.closed|].id == s.active[i].id;
      assert HasId(t.closed, id) <==> HasId(s.closed, id) || s.active[i].id == id by {
        assert forall j | 0 <= j < |s.closed| :: t.closed[j] == s.closed[j];
      }
      assert Unused(s, id) <==> !HasId(s.active, id) && !HasId(s.closed, id);
      assert Unused(t, id) <==> !HasId(t.active, id) && !HasId(t.closed, id);
    }
  }

  lemma AddKeeps(s: Store, cfg: Config, a: Anomaly, id: string, now: real, callbacks: seq<string>)
    requires StoreGood(s, cfg) && Unused(s, id) && |s.active| < Max(1, cfg.maxConcurrent)
    requires FindOpen(s.active, a.fingerprint) == |s.active|
    requires CallsMatch(s, callbacks) && id !in callbacks
    ensures var t := s.(active := s.active + [NewIncident(a, id, now)]);
      && StoreGood(t, cfg) && CallsMatch(t, callbacks)
      && (forall x :: Unused(t, x) <==> Unused(s, x) && x != id)
  {
    var i := NewIncident(a, id, now);
    var t := s.(active := s.active + [i]);
    assert AllEvidence(i.anomalies) == [] + a.evidence by { assert [a][..0] == []; }
    assert t.active[|s.active|] == i;
    assert forall j | 0 <= j < |s.active| :: t.active[j] == s.active[j];
  }

  lemma MakeRoomOpensNone(s: Store, cfg: Config, now: real, fingerprint: string)
    requires FindOpen(s.active, fingerprint) == |s.active|
    ensures var t := MakeRoom(s, cfg, now); FindOpen(t.active, fingerprint) == |t.active|
  {
    var victim := EvictionIndex(s.active);
    if |s.active| >= cfg.maxConcurrent && victim.Some? {
      NoneOpen(Without(s.active, victim.value), fingerprint);
    }
  }

  lemma {:induction false} MakeRoomKeeps(s: Store, cfg: Config, now: real, fingerprint: string, callbacks: seq<string>)
    requires StoreGood(s, cfg) && FindOpen(s.active, fingerprint) == |s.active| && CallsMatch(s, callbacks)
    ensures var t := MakeRoom(s, cfg, now);
      && StoreGood(t, cfg) && |t.active| < Max(1, cfg.maxConcurrent)
      && FindOpen(t.active, fingerprint) == |t.active|
      && |t.active| + |t.closed| == |s.active| + |s.closed|
      && CallsMatch(t, callbacks)
      && (forall id :: Unused(s, id) <==> Unused(t, id))
  {
    MakeRoomOpensNone(s, cfg, now, fingerprint);
    if s.active != [] { EvictionPrefersInfo(s.active); }
    var victim := EvictionIndex(s.active);
    if |s.active| >= cfg.maxConcurrent && victim.Some? {
      CloseKeeps(s, cfg, victim.value, now, callbacks);
    }
  }

  lemma NoneOpen(active: seq<Incident>, fingerprint: string)
    requires forall j | 0 <= j < |active| :: !(active[j].fingerprint == fingerprint && IsOpen(active[j]))
    ensures FindOpen(active, fingerprint) == |active|
  {
  }

  // Deduplication leaves an open incident with the anomaly's fingerprint at the place it
  // returns, keeps the invariant, and adds one incident exactly when it says so.
  lemma {:induction false} FindOrCreateKeeps(s: Store, a: Anomaly, cfg: Config, id: string, now: real, callbacks: seq<string>)
    requires StoreGood(s, cfg) && Unused(s, id) && CallsMatch(s, callbacks) && id !in callbacks
    ensures var (t, i, isNew) := FindOrCreate(s, a, cfg, id, now);
      && StoreGood(t, cfg) && CallsMatch(t, callbacks)
      && i < |t.active| && FindOpen(t.active, a.fingerprint) == i
      && |t.active| + |t.closed| == |s.active| + |s.closed| + (if isNew then 1 else 0)
      && (forall x :: Unused(t, x) <==> Unused(s, x) && !(isNew && x == id))
      && (isNew <==> FindOpen(s.active, a.fingerprint) == |s.active|)
      && (isNew ==> t.active[i] == NewIncident(a, id, now))
      && (cfg.cooldownSeconds > 0.0 ==> now - t.active[i].updatedAt < cfg.cooldownSeconds)
  {
    var i := FindOpen(s.active, a.fingerprint);
    if i < |s.active| {
      if now - s.active[i].updatedAt >= cfg.cooldownSeconds {
        AttachEvolves(s.active[i], a, now);
        ReplaceKeeps(s, cfg, i, Attach(s.active[i], a, now), callbacks);
        FindOpenIs(s.active[i := Attach(s.active[i], a, now)], a.fingerprint, i);
      }
    } else {
      MakeRoomKeeps(s, cfg, now, a.fingerprint, callbacks);
      var room := MakeRoom(s, cfg, now);
      AddKeeps(room, cfg, a, id, now, callbacks);
      NewIsFound(room.active, NewIncident(a, id, now));
    }
  }

  lemma {:induction false} NewIsFound(active: seq<Incident>, i: Incident)
    requires FindOpen(active, i.fingerprint) == |active| && IsOpen(i)
    ensures FindOpen(active + [i], i.fingerprint) == |active|
  {
    var longer := active + [i];
    assert forall j | 0 <= j < |active| :: longer[j] == active[j];
    FindOpenIs(longer, i.fingerprint, |active|);
  }

  lemma {:induction false} FindOpenIs(active: seq<Incident>, fingerprint: string, i: nat)
    requires i < |active| && IsOpen(active[i]) && active[i].fingerprint == fingerprint
    requires forall j | 0 <= j < i :: !(active[j].fingerprint == fingerprint && IsOpen(active[j]))
    ensures FindOpen(active, fingerprint) == i
  {
  }

  // The incidents are the same ones, in the same places and states.
  ghost predicate SamePlaces(s: Store, t: Store) {
    && t.closed == s.closed && t.history == s.history && |t.active| == |s.active|
    && forall j | 0 <= j < |s.active| :: t.active[j].id == s.active[j].id && t.active[j].state == s.active[j].state
  }

  ghost predicate KeepsPlaces(s: Store, t: Store, cfg: Config, callbacks: seq<string>) {
    && StoreGood(t, cfg) && SamePlaces(s, t) && CallsMatch(t, callbacks)
    && (forall id :: Unused(s, id) <==> Unused(t, id))
  }

  lemma {:induction false} AttachKeepsPlaces(s: Store, a: Anomaly, cfg: Config, k: nat, now: real, callbacks: seq<string>)
    requires StoreGood(s, cfg) && k < |s.active| && CallsMatch(s, callbacks)
    ensures KeepsPlaces(s, s.(active := s.active[k := Attach(s.active[k], a, now)]), cfg, callbacks)
  {
    AttachEvolves(s.active[k], a, now);
    ReplaceKeeps(s, cfg, k, Attach(s.active[k], a, now), callbacks);
  }

  // Inside a cycle the correlation step never creates an incident: it attaches the anomaly
  // to a related one or, failing that, comes back to the incident deduplication has just
  // found or made, and then (within the cooldown) leaves it alone.
  lemma {:induction false} CorrelationNeverCreates(s: Store, a: Anomaly, cfg: Config, spare: string, now: real, callbacks: seq<string>)
    requires StoreGood(s, cfg) && FindOpen(s.active, a.fingerprint) < |s.active| && CallsMatch(s, callbacks)
    ensures var t := Correlate(s, a, cfg, spare, now);
      && KeepsPlaces(s, t, cfg, callbacks)
      && (FindMatch(s.active, a, cfg) == |s.active| ==>
            now - s.active[FindOpen(s.active, a.fingerprint)].updatedAt < cfg.cooldownSeconds ==> t == s)
  {
    var i := FindMatch(s.active, a, cfg);
    var k := if i < |s.active| then i else FindOpen(s.active, a.fingerprint);
    AttachKeepsPlaces(s, a, cfg, k, now, callbacks);
  }

  // ---- The engine ----

  ghost predicate EngineGood(e: Engine, cfg: Config) {
    && StoreGood(e.store, cfg)
    && e.created == |e.store.active| + |e.store.closed|
    && CallsMatch(e.store, e.callbacks)
    && (forall i, j | 0 <= i < j < |e.callbacks| :: e.callbacks[i] != e.callbacks[j])
    && (forall k | 0 <= k < |e.callbacks| :: !Unused(e.store, e.callbacks[k]))
  }

  // The ids a step may give out have not been used before.
  ghost predicate FreshIds(e: Engine, event: Event) {
    event.Observe? ==> event.id != event.spare && Unused(e.store, event.id) && Unused(e.store, event.spare)
  }

  // Deduplication followed by correlation.
  lemma {:induction false} PlacedKeeps(s: Store, a: Anomaly, cfg: Config, id: string, spare: string, now: real, callbacks: seq<string>)
    requires StoreGood(s, cfg) && CallsMatch(s, callbacks) && Unused(s, id) && id !in callbacks
    ensures var (found, i, isNew) := FindOrCreate(s, a, cfg, id, now);
      var store := Correlate(found, a, cfg, spare, now);
      && StoreGood(store, cfg) && CallsMatch(store, callbacks) && i < |store.active|
      && |store.active| + |store.closed| == |s.active| + |s.closed| + (if isNew then 1 else 0)
      && (forall x :: Unused(store, x) ==> Unused(s, x))
  {
    var (found, i, isNew) := FindOrCreate(s, a, cfg, id, now);
    FindOrCreateKeeps(s, a, cfg, id, now, callbacks);
    CorrelationNeverCreates(found, a, cfg, spare, now, callbacks);
  }

  lemma {:induction false} PlaceKeeps(e: Engine, a: Anomaly, cfg: Config, id: string, spare: string, now: real)
    requires EngineGood(e, cfg) && FreshIds(e, Observe(a, id, spare, now))
    ensures var (placed, i) := Place(e, a, cfg, id, spare, now);
      EngineGood(placed, cfg) && i < |placed.store.active|
  {
    PlacedKeeps(e.store, a, cfg, id, spare, now, e.callbacks);
  }

  lemma ConfirmAtKeeps(e: Engine, i: nat, a: Anomaly, cfg: Config, now: real)
    requires EngineGood(e, cfg) && i < |e.store.active|
    ensures EngineGood(ConfirmAt(e, i, a, now), cfg)
  {
    if ToConfirm(e.store.active[i], a) {
      ConfirmKeeps(e.store, cfg, i, now, e.callbacks);
    }
  }

  lemma {:induction false} ProcessKeeps(e: Engine, a: Anomaly, cfg: Config, id: string, spare: string, now: real)
    requires EngineGood(e, cfg) && FreshIds(e, Observe(a, id, spare, now))
    ensures EngineGood(Process(e, a, cfg, id, spare, now), cfg)
  {
    if CanFire(e.cooldowns, cfg, a.fingerprint, now) {
      var (placed, i) := Place(e, a, cfg, id, spare, now);
      PlaceKeeps(e, a, cfg, id, spare, now);
      ConfirmAtKeeps(placed, i, a, cfg, now);
    }
  }

  lemma ConfirmKeepsGood(s: Store, cfg: Config, i: nat, after: Incident)
    requires StoreGood(s, cfg) && i < |s.active| && Evolves(s.active[i], after)
    ensures var t := s.(active := s.active[i := after]);
      StoreGood(t, cfg) && (forall id :: Unused(s, id) <==> Unused(t, id))
  {
    var t := s.(active := s.active[i := after]);
    assert forall j | 0 <= j < |s.active| :: t.active[j].id == s.active[j].id;
  }

  lemma ConfirmKeeps(s: Store, cfg: Config, i: nat, now: real, callbacks: seq<string>)
    requires StoreGood(s, cfg) && i < |s.active| && CallsMatch(s, callbacks) && s.active[i].state == Detected
    ensures var t := s.(active := s.active[i := s.active[i].(state := Confirmed, updatedAt := now)]);
      && StoreGood(t, cfg) && s.active[i].id !in callbacks && CallsMatch(t, callbacks + [s.active[i].id])
      && (forall id :: Unused(s, id) <==> Unused(t, id))
  {
    var after := s.active[i].(state := Confirmed, updatedAt := now);
    ConfirmKeepsGood(s, cfg, i, after);
    var t := s.(active := s.active[i := after]);
    assert forall j | 0 <= j < |s.active| && j != i :: t.active[j] == s.active[j] && s.active[j].id != s.active[i].id;
  }

  lemma StepKeeps(e: Engine, cfg: Config, event: Event)
    requires EngineGood(e, cfg) && FreshIds(e, event)
    ensures EngineGood(StepEvent(e, cfg, event), cfg)
  {
    match event {
      case Observe(a, id, spare, now) => ProcessKeeps(e, a, cfg, id, spare, now);
      case CloseIncident(i, now) =>
        if i < |e.store.active| { CloseKeeps(e.store, cfg, i, now, e.callbacks); }
      case ResolveIncident(i, now) =>
        if i < |e.store.active| {
          ReplaceKeeps(e.store, cfg, i, e.store.active[i].(state := Resolved, updatedAt := now), e.callbacks);
        }
      case SuppressIncident(i, now) =>
        if i < |e.store.active| {
          ReplaceKeeps(e.store, cfg, i, e.store.active[i].(state := Suppressed, updatedAt := now), e.callbacks);
        }
      case Recover(_) =>
    }
  }

  ghost predicate FreshRun(cfg: Config, events: seq<Event>) {
    forall n | 0 <= n < |events| :: FreshIds(Run(cfg, events[..n]), events[n])
  }

  // Along every run there is at most one open incident a fingerprint, the active incidents
  // stay within the limit, every incident sums up its anomalies, no incident is handed to
  // the callback twice, the created incidents are the active and the closed ones, and the
  // history is the end of the closed ones.
  lemma {:induction false} RunIsGood(cfg: Config, events: seq<Event>)
    requires FreshRun(cfg, events)
    ensures EngineGood(Run(cfg, events), cfg)
  {
    if events != [] {
      var n := |events| - 1;
      var before := events[..n];
      forall m | 0 <= m < n ensures FreshIds(Run(cfg, before[..m]), before[m]) {
        assert before[..m] == events[..m];
      }
      RunIsGood(cfg, before);
      StepKeeps(Run(cfg, before), cfg, events[n]);
    }
  }

  // ---- Fires ----

  // The times at which a fingerprint fired.
  function TimesOf(fires: seq<(string, real)>, fp: string): seq<real> {
    if fires == [] then []
    else
      var n := |fires| - 1;
      TimesOf(fires[..n], fp) + if fires[n].0 == fp then [fires[n].1] else []
  }

  // The least gap before the i-th fire (counted from zero) without recoveries.
  function Gap(cfg: Config, i: nat): real {
    if i >= 3 && cfg.escalationSeconds > cfg.cooldownSeconds then cfg.escalationSeconds else cfg.cooldownSeconds
  }

  ghost predicate Spaced(times: seq<real>, cfg: Config) {
    forall i | 0 < i < |times| :: times[i] - times[i - 1] >= Gap(cfg, i)
  }

  // The tracker remembers the number of fires and the last one.
  ghost predicate SpacedFires(fires: seq<(string, real)>, c: Cooldowns, cfg: Config, fp: string) {
    var times := TimesOf(fires, fp);
    && Spaced(times, cfg)
    && FireCount(c, fp) == |times|
    && (times != [] ==> LastFired(c, fp) == times[|times| - 1])
  }

  ghost predicate CooldownsGood(e: Engine, cfg: Config, fp: string) {
    SpacedFires(e.fires, e.cooldowns, cfg, fp)
  }

  ghost predicate NoRecovery(events: seq<Event>, fp: string) {
    forall n | 0 <= n < |events| :: events[n] != Recover(fp)
  }

  // Without recoveries two fires of a fingerprint are at least the cooldown apart, and from
  // the fourth fire on at least the longer of the two cooldowns.
  lemma {:induction false} FiresAreSpaced(cfg: Config, events: seq<Event>, fp: string)
    requires NoRecovery(events, fp)
    ensures CooldownsGood(Run(cfg, events), cfg, fp)
  {
    if events != [] {
      var n := |events| - 1;
      FiresAreSpaced(cfg, events[..n], fp);
      FireStep(Run(cfg, events[..n]), cfg, events[n], fp);
    }
  }

  lemma {:induction false} FireStep(e: Engine, cfg: Config, event: Event, fp: string)
    requires CooldownsGood(e, cfg, fp) && event != Recover(fp)
    ensures CooldownsGood(StepEvent(e, cfg, event), cfg, fp)
  {
    if event.Observe? && CanFire(e.cooldowns, cfg, event.anomaly.fingerprint, event.at) {
      var next := StepEvent(e, cfg, event);
      assert next.fires == e.fires + [(event.anomaly.fingerprint, event.at)];
      assert next.cooldowns == Fired(e.cooldowns, event.anomaly.fingerprint, event.at);
      AddFire(e.fires, e.cooldowns, cfg, event.anomaly.fingerprint, event.at, fp);
    }
  }

  lemma AddFire(fires: seq<(string, real)>, c: Cooldowns, cfg: Config, fired: string, now: real, fp: string)
    requires SpacedFires(fires, c, cfg, fp) && CanFire(c, cfg, fired, now)
    ensures SpacedFires(fires + [(fired, now)], Fired(c, fired, now), cfg, fp)
  {
    var next := fires + [(fired, now)];
    assert next[..|fires|] == fires;
    if fired == fp {
      assert TimesOf(next, fp) == TimesOf(fires, fp) + [now];
    } else {
      assert TimesOf(next, fp) == TimesOf(fires, fp);
    }
  }

  // With the default cooldowns of 300 and 600 seconds, k >= 3 fires span 600 * (k - 2).
  lemma {:induction false} FiresSpan(times: seq<real>, cfg: Config, k: nat)
    requires cfg.cooldownSeconds == 300.0 && cfg.escalationSeconds == 600.0
    requires Spaced(times, cfg) && 3 <= k <= |times|
    ensures times[k - 1] - times[0] >= 600.0 * ((k - 2) as real)
  {
    if k == 3 {
      assert times[2] - times[1] >= Gap(cfg, 2) && times[1] - times[0] >= Gap(cfg, 1);
    } else {
      FiresSpan(times, cfg, k - 1);
      assert times[k - 1] - times[k - 2] >= Gap(cfg, k - 1);
    }
  }
}
