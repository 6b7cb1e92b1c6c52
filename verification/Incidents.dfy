/**
  Incident lifecycle of the activity service: device outages, integration
  outages and battery alarms share one map of active incidents and one stream of
  incidents handed to `record`.  Times are integer milliseconds.
 */
module Incidents {
  import opened Prelude

  const DEFAULT_THRESHOLD_MS := HOUR

  datatype Power = Mains | Battery
  datatype Protocol = Zigbee | Matter | Thread | OtherProtocol
  datatype Device = Device(id: string, protocol: Protocol, power: Power)

  /** The string keys of the service, one constructor per prefix. */
  datatype IncidentId =
    | DeviceOffline(device: string)
    | IntegrationOffline(integration: string)
    | BatteryLevel(device: string)
    | BatteryCritical(device: string)

  datatype Phase = Watching | Open | Recovering | Warning | Critical

  datatype Incident = Incident(
    incidentId: IncidentId, phase: Phase, revision: nat,
    firstObservedAt: int, lastObservedAt: int, criticalAt: int,
    openedAt: Option<int>, recoveredAt: Option<int>, openBeforeRecovery: bool,
    protocol: Protocol, power: Power)

  /** An incident handed to `record`. */
  datatype Emission = Emission(incidentId: IncidentId, opens: bool, revision: nat, firstObservedAt: int, at: int)

  /** A threshold of zero stands for one that is absent or not a number. */
  datatype Config = Config(mains: int, battery: int, integration: int, startupWarmupMs: int, recoveryStableMs: int)

  const HOUR := 60 * 60 * 1000
  const STABLE := 2 * 60 * 1000

  /** The hub's own thresholds, warm-up and recovery window. */
  const HUB := Config(HOUR, HOUR, HOUR, 90 * 1000, STABLE)

  datatype State = State(active: map<IncidentId, Incident>, startedAt: int, log: seq<Emission>)

  datatype Event =
    | Unavailable(device: Device, now: int)
    | Available(device: Device, now: int)
    | Integration(name: string, healthy: bool, now: int)
    | BatteryReading(device: Device, level: Option<real>, now: int)
    | Sweep(now: int, order: seq<IncidentId>)
    | Start(now: int)

  // ---------------------------------------------------------------- steps

  function OrDefault(threshold: int): int {
    if threshold != 0 then threshold else DEFAULT_THRESHOLD_MS
  }

  function ThresholdMs(cfg: Config, id: IncidentId, power: Power): int {
    if id.IntegrationOffline? then OrDefault(cfg.integration)
    else if power.Battery? then OrDefault(cfg.battery)
    else OrDefault(cfg.mains)
  }

  function CriticalAt(cfg: Config, id: IncidentId, incident: Incident): int {
    incident.firstObservedAt + ThresholdMs(cfg, id, incident.power)
  }

  function IntegrationKey(name: string): IncidentId {
    IntegrationOffline(if name == "" then "integration" else name)
  }

  function ParentIntegration(protocol: Protocol): Option<IncidentId> {
    match protocol
    case Zigbee => Some(IntegrationOffline("zigbee2mqtt"))
    case Matter => Some(IntegrationOffline("matter"))
    case Thread => Some(IntegrationOffline("thread"))
    case OtherProtocol => None
  }

  predicate OfflinePhase(phase: Phase) {
    phase in {Watching, Open, Recovering}
  }

  predicate ParentIsOffline(active: map<IncidentId, Incident>, protocol: Protocol) {
    var parent := ParentIntegration(protocol);
    parent.Some? && parent.value in active && OfflinePhase(active[parent.value].phase)
  }

  function Save(s: State, id: IncidentId, incident: Incident): State {
    s.(active := s.active[id := incident])
  }

  function Forget(s: State, id: IncidentId): State {
    s.(active := s.active - {id})
  }

  function Record(s: State, emission: Emission): State {
    s.(log := s.log + [emission])
  }

  predicate IsPremature(cfg: Config, id: IncidentId, incident: Incident, now: int) {
    incident.phase.Open? && now < CriticalAt(cfg, id, incident)
  }

  /** Withdraws an incident that was opened before its threshold. */
  function Reclassify(cfg: Config, s: State, id: IncidentId, incident: Incident, now: int): State {
    var recorded :=
      if incident.revision > 0
      then Record(s, Emission(id, false, incident.revision + 1, incident.firstObservedAt, now))
      else s;
    Save(recorded, id, incident.(phase := Watching, revision := 0, openedAt := None, recoveredAt := None,
                                 lastObservedAt := now, criticalAt := CriticalAt(cfg, id, incident)))
  }

  function NewWatch(cfg: Config, id: IncidentId, now: int, protocol: Protocol, power: Power): Incident {
    Incident(id, Watching, 0, now, now, now + ThresholdMs(cfg, id, power), None, None, false, protocol, power)
  }

  function Opened(incident: Incident, now: int): Incident {
    incident.(phase := Open, revision := incident.revision + 1, openedAt := Some(now), lastObservedAt := now)
  }

  function OpenAndRecord(s: State, id: IncidentId, incident: Incident, now: int): State {
    Record(Save(s, id, Opened(incident, now)),
           Emission(id, true, incident.revision + 1, incident.firstObservedAt, now))
  }

  function ObserveUnavailable(cfg: Config, s: State, device: Device, now: int): State {
    var id := DeviceOffline(device.id);
    if device.id == "" then s
    else if id !in s.active then Save(s, id, NewWatch(cfg, id, now, device.protocol, device.power))
    else
      var existing := s.active[id];
      if IsPremature(cfg, id, existing, now) then Reclassify(cfg, s, id, existing, now)
      else Save(s, id, existing.(phase := if existing.phase.Recovering? then Open else existing.phase,
                                 recoveredAt := None, lastObservedAt := now,
                                 criticalAt := CriticalAt(cfg, id, existing), protocol := device.protocol))
  }

  function ObserveAvailable(s: State, device: Device, now: int): State {
    var id := DeviceOffline(device.id);
    if id !in s.active then s
    else
      var existing := s.active[id];
      if existing.phase.Open? then
        Save(s, id, existing.(phase := Recovering, openBeforeRecovery := true, recoveredAt := Some(now),
                              lastObservedAt := now, protocol := device.protocol))
      else if existing.phase.Recovering? then
        Save(s, id, existing.(recoveredAt := if existing.recoveredAt.Some? then existing.recoveredAt else Some(now),
                              lastObservedAt := now, protocol := device.protocol))
      else Forget(s, id)
  }

  function ObserveIntegration(cfg: Config, s: State, name: string, healthy: bool, now: int): State {
    var id := IntegrationKey(name);
    if healthy then
      if id !in s.active then s
      else
        var existing := s.active[id];
        if existing.phase.Open? then
          Save(s, id,
               existing.(phase := Recovering, openBeforeRecovery := true, recoveredAt := Some(now),
                         lastObservedAt := now))
        else if existing.phase.Recovering? then s
        else Forget(s, id)
    else if id !in s.active then Save(s, id, NewWatch(cfg, id, now, OtherProtocol, Mains))
    else
      var existing := s.active[id];
      if IsPremature(cfg, id, existing, now) then Reclassify(cfg, s, id, existing, now)
      else if !existing.phase.Watching? then s
      else
        var criticalAt := CriticalAt(cfg, id, existing);
        if now >= criticalAt then OpenAndRecord(s, id, existing, now)
        else if existing.criticalAt != criticalAt then
          Save(s, id, existing.(criticalAt := criticalAt, lastObservedAt := now))
        else s
  }

  function ObserveBattery(s: State, device: Device, level: Option<real>, now: int): State {
    var id := BatteryLevel(device.id);
    if device.id == "" || level.None? then s
    else if level.value <= 10.0 then
      if id in s.active && s.active[id].phase.Critical? then s
      else
        var first := if id in s.active then s.active[id].firstObservedAt else now;
        var revision := if id in s.active then s.active[id].revision + 1 else 1;
        var next := Incident(BatteryCritical(device.id), Critical, revision, first, now, now, None, None, false,
                             device.protocol, device.power);
        Record(Save(s, id, next), Emission(next.incidentId, true, revision, first, now))
    else if level.value <= 20.0 then
      if id in s.active then s
      else Save(s, id, Incident(id, Warning, 0, now, now, now, None, None, false, device.protocol, device.power))
    else if level.value > 25.0 && id in s.active then
      var existing := s.active[id];
      if existing.phase.Critical? then
        var revision := if existing.revision == 0 then 2 else existing.revision + 1;
        Forget(Record(s, Emission(existing.incidentId, false, revision, existing.firstObservedAt, now)), id)
      else Forget(s, id)
    else s
  }

  /** One turn of the sweep's loop; `incident` comes from the snapshot taken before the loop. */
  function SweepOne(cfg: Config, s: State, id: IncidentId, incident: Incident, now: int): State {
    if IsPremature(cfg, id, incident, now) then Reclassify(cfg, s, id, incident, now)
    else if incident.phase.Recovering? then
      if incident.recoveredAt.None? || now - incident.recoveredAt.value < cfg.recoveryStableMs then s
      else
        var revision := if incident.revision == 0 then 2 else incident.revision + 1;
        var recorded :=
          if incident.openBeforeRecovery || incident.revision > 0
          then Record(s, Emission(id, false, revision, incident.firstObservedAt, now))
          else s;
        Forget(recorded, id)
    else if !incident.phase.Watching? then s
    else
      var criticalAt := CriticalAt(cfg, id, incident);
      var noted := if incident.criticalAt != criticalAt then Save(s, id, incident.(criticalAt := criticalAt)) else s;
      if now < criticalAt then noted
      else if id.IntegrationOffline? then OpenAndRecord(noted, id, incident, now)
      else if ParentIsOffline(noted.active, incident.protocol) then noted
      else OpenAndRecord(noted, id, incident, now)
  }

  /** The first `turns` turns of a sweep of `s` in the given enumeration order. */
  function SweepTo(cfg: Config, s: State, order: seq<IncidentId>, now: int, turns: nat): State
    requires turns <= |order|
  {
    if turns == 0 then s
    else
      var before := SweepTo(cfg, s, order, now, turns - 1);
      var id := order[turns - 1];
      if id in s.active then SweepOne(cfg, before, id, s.active[id], now) else before
  }

  function SweepAll(cfg: Config, s: State, now: int, order: seq<IncidentId>): State {
    if now - s.startedAt < cfg.startupWarmupMs then s else SweepTo(cfg, s, order, now, |order|)
  }

  function Step(cfg: Config, s: State, event: Event): State {
    match event
    case Unavailable(device, now) => ObserveUnavailable(cfg, s, device, now)
    case Available(device, now) => ObserveAvailable(s, device, now)
    case Integration(name, healthy, now) => ObserveIntegration(cfg, s, name, healthy, now)
    case BatteryReading(device, level, now) => ObserveBattery(s, device, level, now)
    case Sweep(now, order) => SweepAll(cfg, s, now, order)
    case Start(now) => s.(startedAt := now)
  }

  /** The state after a run that starts with no incidents. */
  function Run(cfg: Config, startedAt: int, trace: seq<Event>): State {
    if trace == [] then State(map[], startedAt, [])
    else Step(cfg, Run(cfg, startedAt, Init(trace)), Last(trace))
  }

  // ------------------------------------------- what a run says by itself

  function EventTime(event: Event): int {
    event.now
  }

  predicate InOrder(trace: seq<Event>) {
    forall i, j | 0 <= i <= j < |trace| :: EventTime(trace[i]) <= EventTime(trace[j])
  }

  ghost predicate SweepsEnumerate(trace: seq<Event>) {
    forall i | 0 <= i < |trace| && trace[i].Sweep? :: NoDuplicates(trace[i].order)
  }

  /** A non-decreasing clock, and sweeps that visit no incident twice. */
  ghost predicate WellFormed(startedAt: int, trace: seq<Event>) {
    && InOrder(trace)
    && SweepsEnumerate(trace)
    && forall i | 0 <= i < |trace| :: startedAt <= EventTime(trace[i])
  }

  /** The unbroken series of "unavailable" observations a run ends in, if it ends in one. */
  datatype Streak = Streak(since: int, power: Power, protocol: Protocol)

  function BadStreak(trace: seq<Event>, device: string): Option<Streak> {
    if trace == [] then None
    else
      var before := BadStreak(Init(trace), device);
      match Last(trace)
      case Unavailable(d, now) =>
        if d.id != device then before
        else if before.None? then Some(Streak(now, d.power, d.protocol))
        else Some(before.value.(protocol := d.protocol))
      case Available(d, now) => if d.id == device then None else before
      case _ => before
  }

  /** Start of the unbroken series of "available" observations a run ends in, if it ends in one. */
  function GoodStreak(trace: seq<Event>, device: string): Option<int> {
    if trace == [] then None
    else
      var before := GoodStreak(Init(trace), device);
      match Last(trace)
      case Available(d, now) => if d.id == device && before.None? then Some(now) else before
      case Unavailable(d, _) => if d.id == device then None else before
      case _ => before
  }

  /** Start of the unbroken series of unhealthy readings of an integration. */
  function UnhealthySince(trace: seq<Event>, id: IncidentId): Option<int> {
    if trace == [] then None
    else
      var before := UnhealthySince(Init(trace), id);
      match Last(trace)
      case Integration(name, healthy, now) =>
        if IntegrationKey(name) != id then before
        else if healthy then None
        else if before.None? then Some(now) else before
      case _ => before
  }

  /** Some reading at or before a time found the integration healthy. */
  predicate HealthyBy(trace: seq<Event>, id: IncidentId, time: int) {
    trace != [] &&
      (HealthyBy(Init(trace), id, time)
       || (&& Last(trace).Integration? && Last(trace).healthy && IntegrationKey(Last(trace).name) == id
           && Last(trace).now <= time))
  }

  /** Hysteresis on the readings: at or below 10 raises the alarm, above 25 clears it. */
  function BatteryAlarm(trace: seq<Event>, device: string): bool {
    if trace == [] then false
    else
      var before := BatteryAlarm(Init(trace), device);
      match Last(trace)
      case BatteryReading(d, level, _) =>
        if d.id != device || level.None? then before
        else if level.value <= 10.0 then true
        else if level.value > 25.0 then false
        else before
      case _ => before
  }

  /** How often the alarm was raised or cleared. */
  function AlarmChanges(trace: seq<Event>, device: string): nat {
    if trace == [] then 0
    else
      AlarmChanges(Init(trace), device)
      + if BatteryAlarm(trace, device) != BatteryAlarm(Init(trace), device) then 1 else 0
  }

  /** Time of the last (re)start of the sweep timer. */
  function StartedAt(startedAt: int, trace: seq<Event>): int {
    if trace == [] then startedAt
    else if Last(trace).Start? then Last(trace).now
    else StartedAt(startedAt, Init(trace))
  }

  /** The part of the log about one incident. */
  function LogOf(log: seq<Emission>, id: IncidentId): seq<Emission> {
    if log == [] then []
    else LogOf(Init(log), id) + (if Last(log).incidentId == id then [Last(log)] else [])
  }

  /** (open revision 1, resolved revision 2)*, cut off anywhere. */
  predicate Alternates(log: seq<Emission>) {
    forall i | 0 <= i < |log| :: log[i].opens == (i % 2 == 0) && log[i].revision == 1 + i % 2
  }

  // -------------------------------------------------------- the invariant

  predicate IsReported(s: State, id: IncidentId) {
    match id
    case DeviceOffline(_) => id in s.active && s.active[id].phase in {Open, Recovering}
    case IntegrationOffline(_) => id in s.active && s.active[id].phase in {Open, Recovering}
    case BatteryLevel(_) => false
    case BatteryCritical(d) => BatteryLevel(d) in s.active && s.active[BatteryLevel(d)].phase.Critical?
  }

  predicate EntryOk(cfg: Config, id: IncidentId, incident: Incident, clock: int) {
    match id
    case BatteryCritical(_) => false
    case BatteryLevel(d) =>
      || (incident.phase.Warning? && incident.revision == 0)
      || (incident.phase.Critical? && incident.revision == 1 && incident.incidentId == BatteryCritical(d))
    case _ =>
      && OfflinePhase(incident.phase)
      && incident.firstObservedAt <= clock
      && incident.revision == (if incident.phase.Watching? then 0 else 1)
      && (!incident.phase.Watching? ==> CriticalAt(cfg, id, incident) <= clock)
      && (incident.phase.Recovering? ==> incident.recoveredAt.Some? && incident.openBeforeRecovery)
  }

  ghost predicate LogOk(s: State, id: IncidentId) {
    && Alternates(LogOf(s.log, id))
    && (IsReported(s, id) <==> |LogOf(s.log, id)| % 2 == 1)
  }

  ghost predicate Sound(cfg: Config, s: State, clock: int) {
    && (forall id | id in s.active :: EntryOk(cfg, id, s.active[id], clock))
    && (forall id :: LogOk(s, id))
  }

  predicate DeviceTracks(trace: seq<Event>, s: State, device: string) {
    var id := DeviceOffline(device);
    if id !in s.active then BadStreak(trace, device).None?
    else
      match s.active[id].phase
      case Watching => BadStreak(trace, device) ==
        Some(Streak(s.active[id].firstObservedAt, s.active[id].power, s.active[id].protocol))
      case Open => BadStreak(trace, device).Some?
      case Recovering => BadStreak(trace, device).None? && GoodStreak(trace, device) == s.active[id].recoveredAt
      case _ => false
  }

  predicate IntegrationTracks(trace: seq<Event>, s: State, id: IncidentId) {
    && (id in s.active && s.active[id].phase.Watching? ==>
          UnhealthySince(trace, id).Some? && UnhealthySince(trace, id).value <= s.active[id].firstObservedAt)
    && (id in s.active && s.active[id].phase.Recovering? && s.active[id].recoveredAt.Some? ==>
          HealthyBy(trace, id, s.active[id].recoveredAt.value))
  }

  predicate BatteryTracks(trace: seq<Event>, s: State, device: string) {
    && (IsReported(s, BatteryCritical(device)) <==> BatteryAlarm(trace, device))
    && |LogOf(s.log, BatteryCritical(device))| == AlarmChanges(trace, device)
  }

  ghost predicate Tracks(trace: seq<Event>, s: State) {
    && (forall d: string | d != "" :: DeviceTracks(trace, s, d))
    && (forall n: string :: IntegrationTracks(trace, s, IntegrationOffline(n)))
    && (forall d: string | d != "" :: BatteryTracks(trace, s, d))
  }

  /** The log of one incident grows by at most the last record. */
  lemma LogOfSnoc(log: seq<Emission>, e: Emission, id: IncidentId)
    ensures LogOf(log + [e], id) == LogOf(log, id) + (if e.incidentId == id then [e] else [])
  {}

  lemma RecordKeepsOthers(s: State, e: Emission)
    ensures forall id | id != e.incidentId :: LogOf(Record(s, e).log, id) == LogOf(s.log, id)
    ensures LogOf(Record(s, e).log, e.incidentId) == LogOf(s.log, e.incidentId) + [e]
  {}

  lemma AlternatesSnoc(log: seq<Emission>, e: Emission)
    requires Alternates(log)
    ensures Alternates(log + [e]) <==> e.opens == (|log| % 2 == 0) && e.revision == 1 + |log| % 2
  {
    assert (log + [e])[|log|] == e;
  }

  lemma LaterIsSound(cfg: Config, s: State, clock: int, now: int)
    requires Sound(cfg, s, clock) && clock <= now
    ensures Sound(cfg, s, now)
  {}

  /** A premature open incident does not exist once the clock has passed every opening. */
  lemma NeverPremature(cfg: Config, s: State, id: IncidentId, now: int)
    requires Sound(cfg, s, now) && id in s.active
    ensures !IsPremature(cfg, id, s.active[id], now)
  {}

  /** Opening a watched incident keeps the invariant. */
  lemma {:induction false} OpeningIsSound(cfg: Config, s: State, id: IncidentId, incident: Incident, now: int)
    requires Sound(cfg, s, now)
    requires id.DeviceOffline? || id.IntegrationOffline?
    requires id in s.active && s.active[id].phase.Watching? && incident.phase.Watching?
    requires incident.revision == 0 && incident.firstObservedAt <= now && CriticalAt(cfg, id, incident) <= now
    ensures Sound(cfg, OpenAndRecord(s, id, incident, now), now)
  {
    var e := Emission(id, true, 1, incident.firstObservedAt, now);
    RecordKeepsOthers(Save(s, id, Opened(incident, now)), e);
    assert CriticalAt(cfg, id, Opened(incident, now)) == CriticalAt(cfg, id, incident);
    hide LogOf, CriticalAt, Alternates;
    var s' := OpenAndRecord(s, id, incident, now);
    forall other | other in s'.active ensures EntryOk(cfg, other, s'.active[other], now) {
      if other != id {
        assert EntryOk(cfg, other, s.active[other], now);
      }
    }
    assert LogOk(s, id);
    AlternatesSnoc(LogOf(s.log, id), e);
    hide EntryOk;
    forall other ensures LogOk(s', other) {
      assert LogOk(s, other);
      assert other != id ==> (IsReported(s', other) <==> IsReported(s, other));
    }
  }

  /** Saving an incident whose reported status does not change keeps the invariant. */
  lemma SavingIsSound(cfg: Config, s: State, id: IncidentId, incident: Incident, now: int)
    requires Sound(cfg, s, now) && EntryOk(cfg, id, incident, now)
    requires IsReported(Save(s, id, incident), id) == IsReported(s, id)
    requires id.BatteryLevel? ==>
      IsReported(Save(s, id, incident), BatteryCritical(id.device)) == IsReported(s, BatteryCritical(id.device))
    ensures Sound(cfg, Save(s, id, incident), now)
  {
    var s' := Save(s, id, incident);
    forall other ensures LogOk(s', other) {
      assert LogOk(s, other);
    }
  }

  lemma ForgettingIsSound(cfg: Config, s: State, id: IncidentId, now: int)
    requires Sound(cfg, s, now) && id in s.active && s.active[id].phase in {Watching, Warning}
    ensures Sound(cfg, Forget(s, id), now)
  {
    var s' := Forget(s, id);
    assert EntryOk(cfg, id, s.active[id], now);
    forall other ensures LogOk(s', other) {
      assert LogOk(s, other);
    }
  }

  /** Resolving a recovering outage or a critical battery keeps the invariant. */
  lemma ResolvingIsSound(cfg: Config, s: State, id: IncidentId, reportedAs: IncidentId, first: int, now: int)
    requires Sound(cfg, s, now) && id in s.active && s.active[id].phase in {Recovering, Critical}
    requires reportedAs == (if id.BatteryLevel? then BatteryCritical(id.device) else id)
    ensures Sound(cfg, Forget(Record(s, Emission(reportedAs, false, 2, first, now)), id), now)
  {
    var e := Emission(reportedAs, false, 2, first, now);
    RecordKeepsOthers(s, e);
    hide LogOf;
    assert EntryOk(cfg, id, s.active[id], now);
    assert LogOk(s, reportedAs);
    var s' := Forget(Record(s, e), id);
    forall other ensures LogOk(s', other) {
      assert LogOk(s, other);
    }
  }

  lemma SweepOneIsSound(cfg: Config, s: State, id: IncidentId, now: int)
    requires Sound(cfg, s, now) && id in s.active
    ensures Sound(cfg, SweepOne(cfg, s, id, s.active[id], now), now)
  {
    var incident := s.active[id];
    NeverPremature(cfg, s, id, now);
    assert EntryOk(cfg, id, incident, now);
    if incident.phase.Recovering? {
      ResolvingIsSound(cfg, s, id, id, incident.firstObservedAt, now);
    } else if incident.phase.Watching? {
      var criticalAt := CriticalAt(cfg, id, incident);
      SavingIsSound(cfg, s, id, incident.(criticalAt := criticalAt), now);
      var noted := if incident.criticalAt != criticalAt then Save(s, id, incident.(criticalAt := criticalAt)) else s;
      if criticalAt <= now {
        OpeningIsSound(cfg, noted, id, incident, now);
      }
    }
  }

  /** A turn of the sweep changes one incident, adds none and records at most that one. */
  lemma SweepOneFrame(cfg: Config, s: State, id: IncidentId, incident: Incident, now: int)
    requires id in s.active
    ensures var s' := SweepOne(cfg, s, id, incident, now);
      && s'.active.Keys <= s.active.Keys
      && (forall other | other in s.active && other != id :: other in s'.active && s'.active[other] == s.active[other])
      && s'.startedAt == s.startedAt
      && (s'.log == s.log || (s'.log == s.log + [Last(s'.log)] && Last(s'.log).incidentId == id))
  {}

  lemma {:induction false} SweepToFrame(cfg: Config, s: State, order: seq<IncidentId>, now: int, turns: nat)
    requires turns <= |order| && NoDuplicates(order)
    ensures var s' := SweepTo(cfg, s, order, now, turns);
      && s'.active.Keys <= s.active.Keys
      && s'.startedAt == s.startedAt
      && forall id | id in s.active && id !in order[..turns] :: id in s'.active && s'.active[id] == s.active[id]
  {
    hide SweepOne;
    if turns == 0 {
    } else {
      SweepToFrame(cfg, s, order, now, turns - 1);
      var id := order[turns - 1];
      assert order[..turns] == order[..turns - 1] + [id];
      if id in s.active {
        assert id !in order[..turns - 1];
        SweepOneFrame(cfg, SweepTo(cfg, s, order, now, turns - 1), id, s.active[id], now);
      }
    }
  }

  lemma SweepOneTracks(cfg: Config, trace: seq<Event>, s: State, id: IncidentId, now: int)
    requires Sound(cfg, s, now) && Tracks(trace, s) && id in s.active && id != DeviceOffline("")
    ensures Tracks(trace, SweepOne(cfg, s, id, s.active[id], now))
  {
    var s' := SweepOne(cfg, s, id, s.active[id], now);
    NeverPremature(cfg, s, id, now);
    SweepOneFrame(cfg, s, id, s.active[id], now);
    assert EntryOk(cfg, id, s.active[id], now);
    forall d: string | d != "" ensures DeviceTracks(trace, s', d) {
      assert DeviceTracks(trace, s, d);
    }
    forall n: string ensures IntegrationTracks(trace, s', IntegrationOffline(n)) {
      assert IntegrationTracks(trace, s, IntegrationOffline(n));
    }
    forall d: string | d != "" ensures BatteryTracks(trace, s', d) {
      assert BatteryTracks(trace, s, d);
      if s'.log != s.log {
        LogOfSnoc(s.log, Last(s'.log), BatteryCritical(d));
      }
    }
  }

  /** What must have happened for an incident to be handed to `record` at the end of a run. */
  ghost predicate Justified(cfg: Config, startedAt: int, trace: seq<Event>, after: State, e: Emission)
    requires trace != []
  {
    && e.at == Last(trace).now
    && match e.incidentId
       case DeviceOffline(d) =>
         && Last(trace).Sweep?
         && e.at - StartedAt(startedAt, trace) >= cfg.startupWarmupMs
         && if e.opens then
              var streak := BadStreak(trace, d);
              && streak.Some?
              && e.firstObservedAt == streak.value.since
              && e.at - streak.value.since >= ThresholdMs(cfg, e.incidentId, streak.value.power)
              && !ParentIsOffline(after.active, streak.value.protocol)
            else
              var good := GoodStreak(trace, d);
              good.Some? && e.at - good.value >= cfg.recoveryStableMs
       case IntegrationOffline(_) =>
         if e.opens then
           var since := UnhealthySince(trace, e.incidentId);
           && since.Some?
           && since.value <= e.firstObservedAt
           && e.at - e.firstObservedAt >= ThresholdMs(cfg, e.incidentId, Mains)
         else Last(trace).Sweep? && HealthyBy(trace, e.incidentId, e.at - cfg.recoveryStableMs)
       case BatteryCritical(d) =>
         BatteryAlarm(trace, d) == e.opens && BatteryAlarm(Init(trace), d) == !e.opens
       case BatteryLevel(_) => false
  }

  lemma SweepOneIsJustified(cfg: Config, startedAt: int, trace: seq<Event>, s: State, id: IncidentId)
    requires trace != [] && Last(trace).Sweep?
    requires Sound(cfg, s, Last(trace).now) && Tracks(trace, s) && id in s.active && id != DeviceOffline("")
    requires Last(trace).now - StartedAt(startedAt, trace) >= cfg.startupWarmupMs
    ensures var s' := SweepOne(cfg, s, id, s.active[id], Last(trace).now);
      s'.log == s.log || (s'.log == s.log + [Last(s'.log)] && Justified(cfg, startedAt, trace, s', Last(s'.log)))
  {
    var now := Last(trace).now;
    NeverPremature(cfg, s, id, now);
    SweepOneFrame(cfg, s, id, s.active[id], now);
    assert EntryOk(cfg, id, s.active[id], now);
    if id.DeviceOffline? {
      assert DeviceTracks(trace, s, id.device);
    } else if id.IntegrationOffline? {
      assert IntegrationTracks(trace, s, IntegrationOffline(id.integration));
      if s.active[id].phase.Recovering? && now - s.active[id].recoveredAt.value >= cfg.recoveryStableMs {
        HealthyByLater(trace, id, s.active[id].recoveredAt.value, now - cfg.recoveryStableMs);
      }
    }
  }

  lemma {:induction false} HealthyByLater(trace: seq<Event>, id: IncidentId, time: int, later: int)
    requires HealthyBy(trace, id, time) && time <= later
    ensures HealthyBy(trace, id, later)
  {
    if HealthyBy(Init(trace), id, time) {
      HealthyByLater(Init(trace), id, time, later);
    }
  }

  /** Losing an incident cannot make a parent offline. */
  lemma FewerParents(before: map<IncidentId, Incident>, after: map<IncidentId, Incident>, protocol: Protocol)
    requires !ParentIsOffline(before, protocol)
    requires after.Keys <= before.Keys
    requires forall id | id in before :: OfflinePhase(before[id].phase) || !id.IntegrationOffline?
    ensures !ParentIsOffline(after, protocol)
  {}

  lemma StaysJustified(cfg: Config, startedAt: int, trace: seq<Event>, before: State, after: State, e: Emission)
    requires trace != [] && Sound(cfg, before, Last(trace).now) && after.active.Keys <= before.active.Keys
    requires Justified(cfg, startedAt, trace, before, e)
    ensures Justified(cfg, startedAt, trace, after, e)
  {
    if e.incidentId.DeviceOffline? && e.opens {
      forall other | other in before.active
        ensures OfflinePhase(before.active[other].phase) || !other.IntegrationOffline?
      {
        assert EntryOk(cfg, other, before.active[other], Last(trace).now);
      }
      FewerParents(before.active, after.active, BadStreak(trace, e.incidentId.device).value.protocol);
    }
  }

  lemma {:induction false} SweepToIsJustified(cfg: Config, startedAt: int, trace: seq<Event>, s: State,
                                              order: seq<IncidentId>, turns: nat)
    requires trace != [] && Last(trace).Sweep?
    requires Sound(cfg, s, Last(trace).now) && Tracks(trace, s) && DeviceOffline("") !in s.active
    requires Last(trace).now - StartedAt(startedAt, trace) >= cfg.startupWarmupMs
    requires turns <= |order| && NoDuplicates(order)
    ensures var s' := SweepTo(cfg, s, order, Last(trace).now, turns);
      && Sound(cfg, s', Last(trace).now) && Tracks(trace, s')
      && s.log <= s'.log
      && forall k | |s.log| <= k < |s'.log| :: Justified(cfg, startedAt, trace, s', s'.log[k])
  {
    hide SweepOne, Justified, Sound, Tracks, StartedAt;
    if turns == 0 {
    } else {
      var now := Last(trace).now;
      SweepToIsJustified(cfg, startedAt, trace, s, order, turns - 1);
      SweepToFrame(cfg, s, order, now, turns - 1);
      var before := SweepTo(cfg, s, order, now, turns - 1);
      var id := order[turns - 1];
      if id in s.active {
        assert id !in order[..turns - 1];
        SweepOneIsSound(cfg, before, id, now);
        SweepOneTracks(cfg, trace, before, id, now);
        SweepOneIsJustified(cfg, startedAt, trace, before, id);
        SweepOneFrame(cfg, before, id, s.active[id], now);
        var s' := SweepTo(cfg, s, order, now, turns);
        forall k | |s.log| <= k < |before.log| ensures Justified(cfg, startedAt, trace, s', s'.log[k]) {
          assert s'.log[k] == before.log[k];
          StaysJustified(cfg, startedAt, trace, before, s', before.log[k]);
        }
      }
    }
  }

  /** Observations other than a sweep. */
  lemma ObservationIsSound(cfg: Config, s: State, event: Event)
    requires Sound(cfg, s, event.now) && !event.Sweep?
    ensures Sound(cfg, Step(cfg, s, event), event.now)
  {
    var now := event.now;
    match event
    case Unavailable(device, _) =>
      var id := DeviceOffline(device.id);
      if id in s.active {
        NeverPremature(cfg, s, id, now);
        assert EntryOk(cfg, id, s.active[id], now);
        if device.id != "" {
          SavingIsSound(cfg, s, id, ObserveUnavailable(cfg, s, device, now).active[id], now);
        }
      } else {
        SavingIsSound(cfg, s, id, NewWatch(cfg, id, now, device.protocol, device.power), now);
      }
    case Available(device, _) =>
      var id := DeviceOffline(device.id);
      if id in s.active {
        assert EntryOk(cfg, id, s.active[id], now);
        if s.active[id].phase.Watching? {
          ForgettingIsSound(cfg, s, id, now);
        } else {
          SavingIsSound(cfg, s, id, ObserveAvailable(s, device, now).active[id], now);
        }
      }
    case Integration(name, healthy, _) => IntegrationIsSound(cfg, s, name, healthy, now);
    case BatteryReading(device, level, _) => BatteryIsSound(cfg, s, device, level, now);
    case Start(_) =>
      forall id ensures LogOk(Step(cfg, s, event), id) { assert LogOk(s, id); }
  }

  lemma IntegrationIsSound(cfg: Config, s: State, name: string, healthy: bool, now: int)
    requires Sound(cfg, s, now)
    ensures Sound(cfg, ObserveIntegration(cfg, s, name, healthy, now), now)
  {
    var id := IntegrationKey(name);
    if id !in s.active {
      SavingIsSound(cfg, s, id, NewWatch(cfg, id, now, OtherProtocol, Mains), now);
    } else {
      var existing := s.active[id];
      NeverPremature(cfg, s, id, now);
      assert EntryOk(cfg, id, existing, now);
      if healthy && existing.phase.Open? {
        SavingIsSound(cfg, s, id, ObserveIntegration(cfg, s, name, healthy, now).active[id], now);
      } else if healthy && existing.phase.Watching? {
        ForgettingIsSound(cfg, s, id, now);
      } else if !healthy && existing.phase.Watching? {
        if CriticalAt(cfg, id, existing) <= now {
          OpeningIsSound(cfg, s, id, existing, now);
        } else {
          SavingIsSound(cfg, s, id, existing.(criticalAt := CriticalAt(cfg, id, existing), lastObservedAt := now), now);
        }
      }
    }
  }

  lemma RaisingIsSound(cfg: Config, s: State, device: string, incident: Incident, now: int)
    requires Sound(cfg, s, now) && EntryOk(cfg, BatteryLevel(device), incident, now) && incident.phase.Critical?
    requires !IsReported(s, BatteryCritical(device))
    ensures Sound(cfg,
                  Record(Save(s, BatteryLevel(device), incident),
                         Emission(BatteryCritical(device), true, 1, incident.firstObservedAt, now)), now)
  {
    hide LogOf, Alternates;
    var alarm := BatteryCritical(device);
    var saved := Save(s, BatteryLevel(device), incident);
    var e := Emission(alarm, true, 1, incident.firstObservedAt, now);
    RecordKeepsOthers(saved, e);
    assert LogOk(s, alarm);
    AlternatesSnoc(LogOf(s.log, alarm), e);
    forall other ensures LogOk(Record(saved, e), other) {
      assert LogOk(s, other);
    }
  }

  lemma BatteryIsSound(cfg: Config, s: State, device: Device, level: Option<real>, now: int)
    requires Sound(cfg, s, now)
    ensures Sound(cfg, ObserveBattery(s, device, level, now), now)
  {
    var id := BatteryLevel(device.id);
    var alarm := BatteryCritical(device.id);
    var s' := ObserveBattery(s, device, level, now);
    if id in s.active {
      assert EntryOk(cfg, id, s.active[id], now);
    }
    if s' == s {
    } else if level.value <= 10.0 {
      RaisingIsSound(cfg, s, device.id, s'.active[id], now);
    } else if level.value <= 20.0 {
      SavingIsSound(cfg, s, id, s'.active[id], now);
    } else if s.active[id].phase.Critical? {
      ResolvingIsSound(cfg, s, id, alarm, s.active[id].firstObservedAt, now);
    } else {
      ForgettingIsSound(cfg, s, id, now);
    }
  }

  /** A run does not end in a good and a bad streak of the same device. */
  lemma {:induction false} StreaksExclude(trace: seq<Event>, device: string)
    ensures BadStreak(trace, device).None? || GoodStreak(trace, device).None?
  {
    if trace == [] {
    } else {
      StreaksExclude(Init(trace), device);
    }
  }

  /** A sound state, in step with the run before its last event, which is not a sweep. */
  ghost predicate BeforeObservation(cfg: Config, trace: seq<Event>, s: State) {
    && trace != [] && !Last(trace).Sweep?
    && Sound(cfg, s, Last(trace).now) && Tracks(Init(trace), s)
  }

  lemma DeviceObservationTracks(cfg: Config, trace: seq<Event>, s: State, d: string)
    requires BeforeObservation(cfg, trace, s) && d != ""
    ensures DeviceTracks(trace, Step(cfg, s, Last(trace)), d)
  {
    var id := DeviceOffline(d);
    assert DeviceTracks(Init(trace), s, d);
    StreaksExclude(Init(trace), d);
    if id in s.active {
      NeverPremature(cfg, s, id, Last(trace).now);
    }
  }

  lemma IntegrationObservationTracks(cfg: Config, trace: seq<Event>, s: State, n: string)
    requires BeforeObservation(cfg, trace, s)
    requires var since := UnhealthySince(Init(trace), IntegrationOffline(n)); since.Some? ==>
      since.value <= Last(trace).now
    ensures IntegrationTracks(trace, Step(cfg, s, Last(trace)), IntegrationOffline(n))
  {
    var id := IntegrationOffline(n);
    assert IntegrationTracks(Init(trace), s, id);
    if id in s.active {
      NeverPremature(cfg, s, id, Last(trace).now);
    }
  }

  /** An observation records at most one incident, and only about the thing it observes. */
  lemma ObservationRecords(cfg: Config, s: State, event: Event)
    requires Sound(cfg, s, event.now) && !event.Sweep?
    ensures var s' := Step(cfg, s, event);
      s'.log == s.log || (s'.log == s.log + [Last(s'.log)] &&
        match event
        case Integration(name, _, now) => Last(s'.log).incidentId == IntegrationKey(name)
        case BatteryReading(d, _, _) => Last(s'.log).incidentId == BatteryCritical(d.id)
        case _ => false)
  {}

  lemma BatteryObservationTracks(cfg: Config, trace: seq<Event>, s: State, d: string)
    requires BeforeObservation(cfg, trace, s) && d != ""
    ensures BatteryTracks(trace, Step(cfg, s, Last(trace)), d)
  {
    var s' := Step(cfg, s, Last(trace));
    assert BatteryTracks(Init(trace), s, d);
    ObservationRecords(cfg, s, Last(trace));
    if s'.log != s.log {
      LogOfSnoc(s.log, Last(s'.log), BatteryCritical(d));
    }
    BatteryEntry(cfg, s, Last(trace), d);
    hide LogOf, Step, IsReported, Sound, Tracks;
  }

  /** What an observation does to the report and the log of a battery. */
  lemma BatteryEntry(cfg: Config, s: State, event: Event, d: string)
    requires Sound(cfg, s, event.now) && !event.Sweep? && d != ""
    ensures var s', alarm := Step(cfg, s, event), BatteryCritical(d);
      if event.BatteryReading? && event.device.id == d && event.level.Some? then
        && (IsReported(s', alarm) <==> event.level.value <= 10.0 || (IsReported(s, alarm) && event.level.value <= 25.0))
        && (s'.log != s.log <==> IsReported(s', alarm) != IsReported(s, alarm))
      else
        && (IsReported(s', alarm) <==> IsReported(s, alarm))
        && (s'.log != s.log ==> s'.log != [] && Last(s'.log).incidentId != alarm)
  {
    ObservationRecords(cfg, s, event);
    if BatteryLevel(d) in s.active {
      assert EntryOk(cfg, BatteryLevel(d), s.active[BatteryLevel(d)], event.now);
    }
    hide Sound;
  }

  /** Observations other than a sweep keep the run and the state in step, and what they record is justified. */
  lemma ObservationTracks(cfg: Config, startedAt: int, trace: seq<Event>, s: State)
    requires BeforeObservation(cfg, trace, s)
    requires forall n: string :: UnhealthySince(Init(trace), IntegrationOffline(n)).Some? ==>
      UnhealthySince(Init(trace), IntegrationOffline(n)).value <= Last(trace).now
    ensures var s' := Step(cfg, s, Last(trace));
      && Tracks(trace, s')
      && (s'.log == s.log || (s'.log == s.log + [Last(s'.log)] && Justified(cfg, startedAt, trace, s', Last(s'.log))))
  {
    var s' := Step(cfg, s, Last(trace));
    forall d: string | d != "" ensures DeviceTracks(trace, s', d) && BatteryTracks(trace, s', d) {
      DeviceObservationTracks(cfg, trace, s, d);
      BatteryObservationTracks(cfg, trace, s, d);
    }
    forall n: string ensures IntegrationTracks(trace, s', IntegrationOffline(n)) {
      IntegrationObservationTracks(cfg, trace, s, n);
    }
    ObservationRecords(cfg, s, Last(trace));
    if s'.log != s.log {
      ObservationIsJustified(cfg, startedAt, trace, s);
    }
  }

  lemma ObservationIsJustified(cfg: Config, startedAt: int, trace: seq<Event>, s: State)
    requires BeforeObservation(cfg, trace, s)
    requires Step(cfg, s, Last(trace)).log != s.log
    ensures var s' := Step(cfg, s, Last(trace)); s'.log != [] && Justified(cfg, startedAt, trace, s', Last(s'.log))
  {
    ObservationRecords(cfg, s, Last(trace));
    match Last(trace)
    case Integration(name, healthy, now) =>
      var id := IntegrationKey(name);
      assert IntegrationTracks(Init(trace), s, IntegrationOffline(id.integration));
      NeverPremature(cfg, s, id, now);
      assert EntryOk(cfg, id, s.active[id], now);
    case BatteryReading(d, _, now) =>
      assert BatteryTracks(Init(trace), s, d.id);
      if BatteryLevel(d.id) in s.active {
        assert EntryOk(cfg, BatteryLevel(d.id), s.active[BatteryLevel(d.id)], now);
      }
  }

  lemma SweepTracks(trace: seq<Event>, s: State)
    requires trace != [] && Last(trace).Sweep? && Tracks(Init(trace), s)
    ensures Tracks(trace, s)
  {
    forall d: string | d != "" ensures DeviceTracks(trace, s, d) && BatteryTracks(trace, s, d) {
      assert DeviceTracks(Init(trace), s, d) && BatteryTracks(Init(trace), s, d);
    }
    forall n: string ensures IntegrationTracks(trace, s, IntegrationOffline(n)) {
      assert IntegrationTracks(Init(trace), s, IntegrationOffline(n));
    }
  }

  function Clock(startedAt: int, trace: seq<Event>): int {
    if trace == [] then startedAt else Last(trace).now
  }

  lemma {:induction false} UnhealthyInThePast(startedAt: int, trace: seq<Event>, id: IncidentId)
    requires WellFormed(startedAt, trace)
    ensures UnhealthySince(trace, id).Some? ==> UnhealthySince(trace, id).value <= Clock(startedAt, trace)
  {
    if trace == [] {
    } else {
      PrefixIsWellFormed(startedAt, trace);
      UnhealthyInThePast(startedAt, Init(trace), id);
    }
  }

  lemma PrefixIsWellFormed(startedAt: int, trace: seq<Event>)
    requires WellFormed(startedAt, trace) && trace != []
    ensures WellFormed(startedAt, Init(trace))
    ensures Clock(startedAt, Init(trace)) <= Last(trace).now
  {}

  lemma EmptyRun(cfg: Config, startedAt: int)
    ensures Sound(cfg, Run(cfg, startedAt, []), startedAt) && Tracks([], Run(cfg, startedAt, []))
  {}

  lemma SweepIsDistinct(startedAt: int, trace: seq<Event>)
    requires WellFormed(startedAt, trace) && trace != []
    ensures Last(trace).Sweep? ==> NoDuplicates(Last(trace).order)
  {}

  /** The invariant holds after every run, and everything its last event recorded is justified. */
  lemma {:induction false} RunInvariant(cfg: Config, startedAt: int, trace: seq<Event>)
    requires WellFormed(startedAt, trace)
    ensures var s := Run(cfg, startedAt, trace);
      && Sound(cfg, s, Clock(startedAt, trace)) && Tracks(trace, s)
      && s.startedAt == StartedAt(startedAt, trace)
      && DeviceOffline("") !in s.active
    ensures trace != [] ==>
      var before, after := Run(cfg, startedAt, Init(trace)), Run(cfg, startedAt, trace);
      && before.log <= after.log
      && forall k | |before.log| <= k < |after.log| :: Justified(cfg, startedAt, trace, after, after.log[k])
  {
    hide Sound, Tracks, Justified, SweepTo, WellFormed;
    if trace == [] {
      EmptyRun(cfg, startedAt);
    } else {
      PrefixIsWellFormed(startedAt, trace);
      SweepIsDistinct(startedAt, trace);
      RunInvariant(cfg, startedAt, Init(trace));
      var before := Run(cfg, startedAt, Init(trace));
      var event := Last(trace);
      LaterIsSound(cfg, before, Clock(startedAt, Init(trace)), event.now);
      if event.Sweep? {
        SweepTracks(trace, before);
        if event.now - before.startedAt >= cfg.startupWarmupMs {
          SweepToIsJustified(cfg, startedAt, trace, before, event.order, |event.order|);
          SweepToFrame(cfg, before, event.order, event.now, |event.order|);
        }
      } else {
        forall n: string
          ensures UnhealthySince(Init(trace), IntegrationOffline(n)).Some? ==>
            UnhealthySince(Init(trace), IntegrationOffline(n)).value <= event.now
        {
          UnhealthyInThePast(startedAt, Init(trace), IntegrationOffline(n));
        }
        ObservationIsSound(cfg, before, event);
        ObservationTracks(cfg, startedAt, trace, before);
      }
    }
  }

  // ------------------------------------------------------- main theorems

  /** Every incident ever handed to `record` was recorded by some event of the run, and was justified there. */
  lemma {:induction false} EveryEmissionIsJustified(cfg: Config, startedAt: int, trace: seq<Event>, k: nat)
    returns (i: nat)
    requires WellFormed(startedAt, trace)
    requires k < |Run(cfg, startedAt, trace).log|
    ensures i < |trace|
    ensures |Run(cfg, startedAt, trace[..i]).log| <= k < |Run(cfg, startedAt, trace[..i + 1]).log|
    ensures Justified(cfg, startedAt, trace[..i + 1], Run(cfg, startedAt, trace[..i + 1]),
                      Run(cfg, startedAt, trace).log[k])
  {
    PrefixIsWellFormed(startedAt, trace);
    RunInvariant(cfg, startedAt, trace);
    if k < |Run(cfg, startedAt, Init(trace)).log| {
      i := EveryEmissionIsJustified(cfg, startedAt, Init(trace), k);
      assert Init(trace)[..i] == trace[..i] && Init(trace)[..i + 1] == trace[..i + 1];
    } else {
      i := |trace| - 1;
      assert trace[..i + 1] == trace;
    }
  }

  /** What is recorded about one incident is a prefix of (open revision 1, resolved revision 2)*. */
  lemma EmissionsAlternate(cfg: Config, startedAt: int, trace: seq<Event>, id: IncidentId)
    requires WellFormed(startedAt, trace)
    ensures var s := Run(cfg, startedAt, trace);
      && Alternates(LogOf(s.log, id))
      && (IsReported(s, id) <==> |LogOf(s.log, id)| % 2 == 1)
  {
    RunInvariant(cfg, startedAt, trace);
    assert LogOk(Run(cfg, startedAt, trace), id);
  }

  /** The correction for incidents opened too early never applies in a run from no incidents. */
  lemma ReclassificationNeverApplies(cfg: Config, startedAt: int, trace: seq<Event>, now: int, id: IncidentId)
    requires WellFormed(startedAt, trace) && Clock(startedAt, trace) <= now
    requires id in Run(cfg, startedAt, trace).active
    ensures !IsPremature(cfg, id, Run(cfg, startedAt, trace).active[id], now)
  {
    RunInvariant(cfg, startedAt, trace);
    LaterIsSound(cfg, Run(cfg, startedAt, trace), Clock(startedAt, trace), now);
    NeverPremature(cfg, Run(cfg, startedAt, trace), id, now);
  }

  /** A battery is reported exactly while its alarm is up, with one record for each time the alarm changed. */
  lemma BatteryFollowsAlarm(cfg: Config, startedAt: int, trace: seq<Event>, device: string)
    requires WellFormed(startedAt, trace) && device != ""
    ensures var s := Run(cfg, startedAt, trace);
      && (IsReported(s, BatteryCritical(device)) <==> BatteryAlarm(trace, device))
      && |LogOf(s.log, BatteryCritical(device))| == AlarmChanges(trace, device)
  {
    RunInvariant(cfg, startedAt, trace);
    assert BatteryTracks(trace, Run(cfg, startedAt, trace), device);
  }

  /** The state of a parent integration when a sweep reaches a device. */
  lemma {:induction false} ParentAtTurn(cfg: Config, s: State, order: seq<IncidentId>, now: int, turns: nat,
                                        parent: IncidentId)
    requires Sound(cfg, s, now) && NoDuplicates(order) && turns <= |order| && parent.IntegrationOffline?
    ensures parent in SweepTo(cfg, s, order, now, turns).active <==>
      && parent in s.active
      && !(parent in order[..turns] && s.active[parent].phase.Recovering?
           && now - s.active[parent].recoveredAt.value >= cfg.recoveryStableMs)
  {
    if turns == 0 {
    } else {
      ParentAtTurn(cfg, s, order, now, turns - 1, parent);
      SweepToFrame(cfg, s, order, now, turns - 1);
      var before := SweepTo(cfg, s, order, now, turns - 1);
      var id := order[turns - 1];
      assert order[..turns] == order[..turns - 1] + [id];
      assert id !in order[..turns - 1];
      if id in s.active {
        SweepOneFrame(cfg, before, id, s.active[id], now);
        NeverPremature(cfg, s, id, now);
        assert EntryOk(cfg, id, s.active[id], now);
      }
    }
  }

  lemma TurnRecords(cfg: Config, s: State, id: IncidentId, incident: Incident, now: int, other: IncidentId)
    requires id in s.active
    ensures other != id ==> LogOf(SweepOne(cfg, s, id, incident, now).log, other) == LogOf(s.log, other)
  {
    SweepOneFrame(cfg, s, id, incident, now);
    var after := SweepOne(cfg, s, id, incident, now);
    if after.log != s.log {
      LogOfSnoc(s.log, Last(after.log), other);
    }
  }

  /** Only its own turn of a sweep records anything about an incident. */
  lemma {:induction false} SweepRecordsAtItsTurn(cfg: Config, s: State, order: seq<IncidentId>, now: int, k: nat,
                                                 turns: nat)
    requires NoDuplicates(order) && k < |order| && turns <= |order| && order[k] in s.active
    ensures var id := order[k];
      var turn := SweepTo(cfg, s, order, now, k);
      && id in turn.active && turn.active[id] == s.active[id]
      && LogOf(SweepTo(cfg, s, order, now, turns).log, id) ==
         LogOf((if turns <= k then s else SweepOne(cfg, turn, id, s.active[id], now)).log, id)
  {
    hide SweepOne, LogOf;
    SweepToFrame(cfg, s, order, now, k);
    assert order[k] !in order[..k];
    if turns == 0 {
    } else {
      SweepRecordsAtItsTurn(cfg, s, order, now, k, turns - 1);
      if turns - 1 != k && order[turns - 1] in s.active {
        SweepToFrame(cfg, s, order, now, turns - 1);
        assert order[turns - 1] !in order[..turns - 1];
        TurnRecords(cfg, SweepTo(cfg, s, order, now, turns - 1), order[turns - 1], s.active[order[turns - 1]], now,
                    order[k]);
      }
    }
  }

  lemma {:induction false} SweepRecordsOnce(cfg: Config, s: State, order: seq<IncidentId>, now: int, turns: nat,
                                            id: IncidentId)
    requires NoDuplicates(order) && turns <= |order|
    ensures var log := SweepTo(cfg, s, order, now, turns).log;
      s.log <= log && |LogOf(log, id)| <= |LogOf(s.log, id)| + if id in order[..turns] then 1 else 0
  {
    hide SweepOne, LogOf;
    if turns == 0 {
    } else {
      SweepRecordsOnce(cfg, s, order, now, turns - 1, id);
      SweepToFrame(cfg, s, order, now, turns - 1);
      var before, turn := SweepTo(cfg, s, order, now, turns - 1), order[turns - 1];
      assert order[..turns] == order[..turns - 1] + [turn] && turn !in order[..turns - 1];
      if turn in s.active {
        SweepOneFrame(cfg, before, turn, s.active[turn], now);
        var after := SweepOne(cfg, before, turn, s.active[turn], now);
        if after.log != before.log {
          LogOfSnoc(before.log, Last(after.log), id);
        }
      }
    }
  }

  /** One event adds at most one record about an incident, and takes none back. */
  lemma EventRecordsOnce(cfg: Config, s: State, event: Event, id: IncidentId)
    requires Sound(cfg, s, event.now) && (event.Sweep? ==> NoDuplicates(event.order))
    ensures var log := Step(cfg, s, event).log; s.log <= log && |LogOf(log, id)| <= |LogOf(s.log, id)| + 1
  {
    if event.Sweep? {
      SweepRecordsOnce(cfg, s, event.order, event.now, |event.order|, id);
    } else {
      ObservationRecords(cfg, s, event);
      hide Step, LogOf;
      var log := Step(cfg, s, event).log;
      if log != s.log {
        LogOfSnoc(s.log, Last(log), id);
      }
    }
  }

  /** What a device's turn of a sweep records, in terms of its phase. */
  lemma DeviceTurn(cfg: Config, s: State, device: string, incident: Incident, now: int)
    requires EntryOk(cfg, DeviceOffline(device), incident, now)
    ensures var id := DeviceOffline(device);
      LogOf(SweepOne(cfg, s, id, incident, now).log, id) == LogOf(s.log, id) +
        if incident.phase.Watching? && CriticalAt(cfg, id, incident) <= now &&
          !ParentIsOffline(s.active[id := incident], incident.protocol)
        then [Emission(id, true, 1, incident.firstObservedAt, now)]
        else if incident.phase.Recovering? && now - incident.recoveredAt.value >= cfg.recoveryStableMs
        then [Emission(id, false, 2, incident.firstObservedAt, now)]
        else []
  {
    hide LogOf, ParentIsOffline;
    var id := DeviceOffline(device);
    LogOfSnoc(s.log, Emission(id, true, 1, incident.firstObservedAt, now), id);
    LogOfSnoc(s.log, Emission(id, false, 2, incident.firstObservedAt, now), id);
    DevicesAreNoParents(s.active, device, incident, incident.protocol);
    DevicesAreNoParents(s.active, device, incident.(criticalAt := CriticalAt(cfg, id, incident)), incident.protocol);
    hide CriticalAt;
  }

  lemma DevicesAreNoParents(active: map<IncidentId, Incident>, device: string, incident: Incident, protocol: Protocol)
    ensures ParentIsOffline(active[DeviceOffline(device) := incident], protocol) == ParentIsOffline(active, protocol)
  {}

  /** What the sweep at the end of a run records about a device's incident, if it visits it on turn `k`. */
  function SweepRecord(cfg: Config, startedAt: int, trace: seq<Event>, device: string, k: nat): seq<Emission>
    requires trace != [] && Last(trace).Sweep? && k < |Last(trace).order|
    requires DeviceOffline(device) in Run(cfg, startedAt, Init(trace)).active
  {
    var id, now := DeviceOffline(device), Last(trace).now;
    var before := Run(cfg, startedAt, Init(trace));
    var bad, good := BadStreak(trace, device), GoodStreak(trace, device);
    if && !IsReported(before, id) && bad.Some?
       && now - bad.value.since >= ThresholdMs(cfg, id, bad.value.power)
       && !ParentIsOffline(SweepTo(cfg, before, Last(trace).order, now, k).active, bad.value.protocol)
    then [Emission(id, true, 1, bad.value.since, now)]
    else if IsReported(before, id) && good.Some? && now - good.value >= cfg.recoveryStableMs
    then [Emission(id, false, 2, before.active[id].firstObservedAt, now)]
    else []
  }

  /**
    A sweep outside the warm-up that reaches a device's incident opens it exactly when the device is not
    yet reported, its current bad streak has lasted the threshold, and its parent is not offline at that turn;
    it resolves it exactly when the device is reported and its current good streak has lasted the recovery window.
   */
  lemma OutageChangesExactlyWhen(cfg: Config, startedAt: int, trace: seq<Event>, device: string, k: nat)
    requires WellFormed(startedAt, trace) && trace != [] && Last(trace).Sweep? && device != ""
    requires Last(trace).now - StartedAt(startedAt, trace) >= cfg.startupWarmupMs
    requires k < |Last(trace).order| && Last(trace).order[k] == DeviceOffline(device)
    requires DeviceOffline(device) in Run(cfg, startedAt, Init(trace)).active
    ensures var id := DeviceOffline(device);
      LogOf(Run(cfg, startedAt, trace).log, id) ==
      LogOf(Run(cfg, startedAt, Init(trace)).log, id) + SweepRecord(cfg, startedAt, trace, device, k)
  {
    hide LogOf, SweepOne, SweepTo;
    var id, now, order := DeviceOffline(device), Last(trace).now, Last(trace).order;
    SweepIsDistinct(startedAt, trace);
    PrefixIsWellFormed(startedAt, trace);
    RunInvariant(cfg, startedAt, Init(trace));
    var before := Run(cfg, startedAt, Init(trace));
    LaterIsSound(cfg, before, Clock(startedAt, Init(trace)), now);
    assert EntryOk(cfg, id, before.active[id], now);
    assert DeviceTracks(Init(trace), before, device);
    StreaksExclude(trace, device);
    SweepRecordsAtItsTurn(cfg, before, order, now, k, |order|);
    SweepRecordsAtItsTurn(cfg, before, order, now, k, k);
    var turn := SweepTo(cfg, before, order, now, k);
    DeviceTurn(cfg, turn, device, before.active[id], now);
    assert turn.active[id := before.active[id]] == turn.active;
  }

  // ------------------------------------------------- what integrations record

  /** The first unhealthy reading of an integration since it was last healthy or anything was recorded about it. */
  function FailingSince(cfg: Config, startedAt: int, trace: seq<Event>, id: IncidentId): Option<int> {
    if trace == [] then None
    else
      StillFailing(Last(trace), id, RecordsAbout(cfg, startedAt, trace, id),
                   FailingSince(cfg, startedAt, Init(trace), id))
  }

  function StillFailing(event: Event, id: IncidentId, records: bool, before: Option<int>): Option<int> {
    if records then None
    else if !ReadsOf(event, id) then before
    else if event.healthy then None
    else if before.None? then Some(event.now)
    else before
  }

  /** The first healthy reading of an integration since anything was last recorded about it. */
  function BackSince(cfg: Config, startedAt: int, trace: seq<Event>, id: IncidentId): Option<int> {
    if trace == [] then None
    else
      StillBack(Last(trace), id, RecordsAbout(cfg, startedAt, trace, id), BackSince(cfg, startedAt, Init(trace), id))
  }

  function StillBack(event: Event, id: IncidentId, records: bool, before: Option<int>): Option<int> {
    if records then None
    else if ReadsOf(event, id) && event.healthy && before.None? then Some(event.now)
    else before
  }

  predicate RecordsAbout(cfg: Config, startedAt: int, trace: seq<Event>, id: IncidentId)
    requires trace != []
  {
    LogOf(Run(cfg, startedAt, trace).log, id) != LogOf(Run(cfg, startedAt, Init(trace)).log, id)
  }

  predicate ReadsOf(event: Event, id: IncidentId) {
    event.Integration? && IntegrationKey(event.name) == id
  }

  /** A sweep outside the warm-up that reaches an incident. */
  predicate Sweeps(cfg: Config, startedAt: int, event: Event, id: IncidentId) {
    event.Sweep? && id in event.order && event.now - startedAt >= cfg.startupWarmupMs
  }

  /** What an event records about an integration with this log, failing and back since these times. */
  function LinkRecord(cfg: Config, startedAt: int, event: Event, id: IncidentId, log: seq<Emission>,
                      failing: Option<int>, back: Option<int>): seq<Emission>
  {
    if && |log| % 2 == 0 && failing.Some? && event.now - failing.value >= ThresholdMs(cfg, id, Mains)
       && (Sweeps(cfg, startedAt, event, id) || (ReadsOf(event, id) && !event.healthy))
    then [Emission(id, true, 1, failing.value, event.now)]
    else if && |log| % 2 == 1 && back.Some? && event.now - back.value >= cfg.recoveryStableMs
            && Sweeps(cfg, startedAt, event, id)
    then [Emission(id, false, 2, Last(log).firstObservedAt, event.now)]
    else []
  }

  function Entry(s: State, id: IncidentId): Option<Incident> {
    if id in s.active then Some(s.active[id]) else None
  }

  /** An integration's stored incident agrees with its readings and its log. */
  predicate LinkOk(entry: Option<Incident>, log: seq<Emission>, failing: Option<int>, back: Option<int>) {
    match entry
    case None => |log| % 2 == 0 && failing.None?
    case Some(incident) =>
      match incident.phase
      case Watching => |log| % 2 == 0 && incident.revision == 0 && failing == Some(incident.firstObservedAt)
      case Open => |log| % 2 == 1 && incident.revision == 1 && Last(log).firstObservedAt == incident.firstObservedAt &&
        back.None?
      case Recovering => |log| % 2 == 1 && incident.revision == 1 &&
        Last(log).firstObservedAt == incident.firstObservedAt && incident.openBeforeRecovery &&
        back.Some? && back == incident.recoveredAt
      case _ => false
  }

  /** Two states have the same incident and log for an identifier. */
  predicate Alike(s: State, other: State, id: IncidentId) {
    Entry(s, id) == Entry(other, id) && LogOf(s.log, id) == LogOf(other.log, id)
  }

  /** An integration's turn of the sweep depends on nothing but its own incident. */
  lemma TurnIsLocal(cfg: Config, s: State, other: State, id: IncidentId, now: int)
    requires id.IntegrationOffline? && Alike(s, other, id) && id in s.active
    ensures Alike(SweepOne(cfg, s, id, s.active[id], now), SweepOne(cfg, other, id, s.active[id], now), id)
  {
    hide CriticalAt, LogOf;
    var incident := s.active[id];
    forall e: Emission ensures LogOf(s.log + [e], id) == LogOf(other.log + [e], id) {
      LogOfSnoc(s.log, e, id);
      LogOfSnoc(other.log, e, id);
    }
  }

  /** A sweep does to an integration what its own turn would do to the state before the sweep. */
  lemma {:induction false} SweepIsItsTurn(cfg: Config, s: State, order: seq<IncidentId>, now: int, turns: nat,
                                          id: IncidentId)
    requires NoDuplicates(order) && turns <= |order| && id.IntegrationOffline?
    ensures Alike(SweepTo(cfg, s, order, now, turns),
                  if id in order[..turns] && id in s.active then SweepOne(cfg, s, id, s.active[id], now) else s, id)
  {
    hide SweepOne, LogOf;
    if turns == 0 {
    } else {
      SweepIsItsTurn(cfg, s, order, now, turns - 1, id);
      SweepToFrame(cfg, s, order, now, turns - 1);
      var before, turn := SweepTo(cfg, s, order, now, turns - 1), order[turns - 1];
      assert order[..turns] == order[..turns - 1] + [turn] && turn !in order[..turns - 1];
      if turn in s.active {
        if turn == id {
          TurnIsLocal(cfg, before, s, id, now);
        } else {
          SweepOneFrame(cfg, before, turn, s.active[turn], now);
          TurnRecords(cfg, before, turn, s.active[turn], now, id);
        }
      }
    }
  }

  /** An event records what `LinkRecord` says, and leaves the stored incident in agreement. */
  ghost predicate LinkFollows(cfg: Config, startedAt: int, s: State, event: Event, s': State, id: IncidentId,
                              failing: Option<int>, back: Option<int>)
  {
    var recorded := LinkRecord(cfg, startedAt, event, id, LogOf(s.log, id), failing, back);
    && LogOf(s'.log, id) == LogOf(s.log, id) + recorded
    && LinkOk(Entry(s', id), LogOf(s'.log, id), StillFailing(event, id, recorded != [], failing),
              StillBack(event, id, recorded != [], back))
  }

  lemma IntegrationTurn(cfg: Config, startedAt: int, s: State, event: Event, id: IncidentId, failing: Option<int>,
                        back: Option<int>)
    requires id.IntegrationOffline? && id in s.active && Sweeps(cfg, startedAt, event, id)
    requires !IsPremature(cfg, id, s.active[id], event.now)
    requires LinkOk(Entry(s, id), LogOf(s.log, id), failing, back)
    ensures LinkFollows(cfg, startedAt, s, event, SweepOne(cfg, s, id, s.active[id], event.now), id, failing, back)
  {
    hide LogOf;
    forall e: Emission ensures LogOf(s.log + [e], id) == LogOf(s.log, id) + if e.incidentId == id then [e] else [] {
      LogOfSnoc(s.log, e, id);
    }
  }

  lemma IntegrationReading(cfg: Config, startedAt: int, s: State, event: Event, id: IncidentId, failing: Option<int>,
                           back: Option<int>)
    requires id.IntegrationOffline? && ReadsOf(event, id)
    requires id in s.active ==> !IsPremature(cfg, id, s.active[id], event.now)
    requires LinkOk(Entry(s, id), LogOf(s.log, id), failing, back)
    ensures LinkFollows(cfg, startedAt, s, event, Step(cfg, s, event), id, failing, back)
  {
    hide LogOf;
    forall e: Emission ensures LogOf(s.log + [e], id) == LogOf(s.log, id) + if e.incidentId == id then [e] else [] {
      LogOfSnoc(s.log, e, id);
    }
  }

  /** An event that neither reads an integration nor sweeps it leaves its incident and its log alone. */
  lemma OthersAreAlike(cfg: Config, s: State, event: Event, id: IncidentId)
    requires Sound(cfg, s, event.now) && id.IntegrationOffline? && !ReadsOf(event, id)
    requires event.Sweep? ==> NoDuplicates(event.order) && !Sweeps(cfg, s.startedAt, event, id)
    ensures Alike(Step(cfg, s, event), s, id)
  {
    if event.Sweep? {
      if event.now - s.startedAt >= cfg.startupWarmupMs {
        assert event.order[..|event.order|] == event.order;
        SweepIsItsTurn(cfg, s, event.order, event.now, |event.order|, id);
      }
    } else {
      ObservationRecords(cfg, s, event);
      var s' := Step(cfg, s, event);
      if s'.log != s.log {
        LogOfSnoc(s.log, Last(s'.log), id);
      }
      hide LogOf, Sound;
    }
  }

  lemma IntegrationStep(cfg: Config, s: State, event: Event, id: IncidentId, failing: Option<int>, back: Option<int>)
    requires Sound(cfg, s, event.now) && id.IntegrationOffline?
    requires event.Sweep? ==> NoDuplicates(event.order)
    requires LinkOk(Entry(s, id), LogOf(s.log, id), failing, back)
    ensures LinkFollows(cfg, s.startedAt, s, event, Step(cfg, s, event), id, failing, back)
  {
    hide LogOf, SweepOne, SweepTo, Sound, LinkOk, ObserveIntegration;
    if id in s.active {
      NeverPremature(cfg, s, id, event.now);
    }
    if ReadsOf(event, id) {
      IntegrationReading(cfg, s.startedAt, s, event, id, failing, back);
    } else if Sweeps(cfg, s.startedAt, event, id) && id in s.active {
      assert event.order[..|event.order|] == event.order;
      SweepIsItsTurn(cfg, s, event.order, event.now, |event.order|, id);
      IntegrationTurn(cfg, s.startedAt, s, event, id, failing, back);
    } else if Sweeps(cfg, s.startedAt, event, id) {
      assert event.order[..|event.order|] == event.order;
      SweepIsItsTurn(cfg, s, event.order, event.now, |event.order|, id);
      NothingToRecord(cfg, s.startedAt, event, id, s, failing, back);
    } else {
      OthersAreAlike(cfg, s, event, id);
      NothingToRecord(cfg, s.startedAt, event, id, s, failing, back);
    }
  }

  /** Nothing is recorded where there is no incident, or where the integration is neither read nor swept. */
  lemma NothingToRecord(cfg: Config, startedAt: int, event: Event, id: IncidentId, s: State, failing: Option<int>,
                        back: Option<int>)
    requires LinkOk(Entry(s, id), LogOf(s.log, id), failing, back) && !ReadsOf(event, id)
    requires !Sweeps(cfg, startedAt, event, id) || id !in s.active
    ensures LinkFollows(cfg, startedAt, s, event, s, id, failing, back)
  {
    hide LogOf, ThresholdMs;
  }

  /** The last event of a run records what `LinkRecord` says if the run before it agrees. */
  lemma LinkStep(cfg: Config, startedAt: int, trace: seq<Event>, id: IncidentId)
    requires WellFormed(startedAt, trace) && trace != [] && id.IntegrationOffline?
    requires var s := Run(cfg, startedAt, Init(trace));
      LinkOk(Entry(s, id), LogOf(s.log, id), FailingSince(cfg, startedAt, Init(trace), id),
             BackSince(cfg, startedAt, Init(trace), id))
    ensures LinkFollows(cfg, StartedAt(startedAt, trace), Run(cfg, startedAt, Init(trace)), Last(trace),
                        Run(cfg, startedAt, trace), id, FailingSince(cfg, startedAt, Init(trace), id),
                        BackSince(cfg, startedAt, Init(trace), id))
  {
    hide Step, LinkOk, Sound, Tracks, LogOf, WellFormed, FailingSince, BackSince;
    var s, event := Run(cfg, startedAt, Init(trace)), Last(trace);
    PrefixIsWellFormed(startedAt, trace);
    SweepIsDistinct(startedAt, trace);
    RunInvariant(cfg, startedAt, Init(trace));
    LaterIsSound(cfg, s, Clock(startedAt, Init(trace)), event.now);
    IntegrationStep(cfg, s, event, id, FailingSince(cfg, startedAt, Init(trace), id),
                    BackSince(cfg, startedAt, Init(trace), id));
  }

  /** After every run, an integration's stored incident agrees with its readings and its log. */
  lemma {:induction false} IntegrationFollows(cfg: Config, startedAt: int, trace: seq<Event>, id: IncidentId)
    requires WellFormed(startedAt, trace) && id.IntegrationOffline?
    ensures var s := Run(cfg, startedAt, trace);
      LinkOk(Entry(s, id), LogOf(s.log, id), FailingSince(cfg, startedAt, trace, id),
             BackSince(cfg, startedAt, trace, id))
  {
    hide Step, LinkOk, LinkRecord, WellFormed, LogOf;
    if trace == [] {
      EmptyLink(cfg, startedAt, id);
    } else {
      PrefixIsWellFormed(startedAt, trace);
      IntegrationFollows(cfg, startedAt, Init(trace), id);
      LinkStep(cfg, startedAt, trace, id);
    }
  }

  lemma EmptyLink(cfg: Config, startedAt: int, id: IncidentId)
    ensures var s := Run(cfg, startedAt, []);
      LinkOk(Entry(s, id), LogOf(s.log, id), FailingSince(cfg, startedAt, [], id), BackSince(cfg, startedAt, [], id))
  {}

  /**
    An unhealthy reading, or a sweep outside the warm-up that reaches the incident, reports an integration exactly
    when it is not reported and has been failing for the threshold; such a sweep resolves the report exactly when it
    is reported and was first healthy again at least the recovery window ago.  No other event records anything.
   */
  lemma IntegrationChangesExactlyWhen(cfg: Config, startedAt: int, trace: seq<Event>, id: IncidentId)
    requires WellFormed(startedAt, trace) && trace != [] && id.IntegrationOffline?
    ensures var log := LogOf(Run(cfg, startedAt, Init(trace)).log, id);
      LogOf(Run(cfg, startedAt, trace).log, id) == log +
        LinkRecord(cfg, StartedAt(startedAt, trace), Last(trace), id, log,
                   FailingSince(cfg, startedAt, Init(trace), id), BackSince(cfg, startedAt, Init(trace), id))
  {
    hide Step, LinkOk, LinkRecord, WellFormed, LogOf, FailingSince, BackSince;
    PrefixIsWellFormed(startedAt, trace);
    IntegrationFollows(cfg, startedAt, Init(trace), id);
    LinkStep(cfg, startedAt, trace, id);
  }

  /** An integration was healthy again, and no sweep among these events comes after its recovery window. */
  ghost predicate BackWithin(cfg: Config, events: seq<Event>, back: Option<int>) {
    && back.Some?
    && forall i | 0 <= i < |events| && events[i].Sweep? :: events[i].now - back.value < cfg.recoveryStableMs
  }

  /** Once a reported integration was healthy again, no reading undoes that: only a later sweep ends the report. */
  lemma {:induction false} RelapseChangesNothing(cfg: Config, startedAt: int, trace: seq<Event>, more: seq<Event>,
                                                 id: IncidentId)
    requires WellFormed(startedAt, trace + more) && id.IntegrationOffline?
    requires |LogOf(Run(cfg, startedAt, trace).log, id)| % 2 == 1
    requires BackWithin(cfg, more, BackSince(cfg, startedAt, trace, id))
    ensures LogOf(Run(cfg, startedAt, trace + more).log, id) == LogOf(Run(cfg, startedAt, trace).log, id)
    ensures BackSince(cfg, startedAt, trace + more, id) == BackSince(cfg, startedAt, trace, id)
  {
    hide Step, LogOf, WellFormed, FailingSince;
    if more == [] {
      assert trace + more == trace;
    } else {
      assert Init(trace + more) == trace + Init(more);
      PrefixIsWellFormed(startedAt, trace + more);
      RelapseChangesNothing(cfg, startedAt, trace, Init(more), id);
      IntegrationChangesExactlyWhen(cfg, startedAt, trace + more, id);
    }
  }

  /**
    An integration that was healthy once after its report is reported as recovered by the first sweep past the
    recovery window, whatever it was found to be since then.
   */
  lemma RelapseIsResolved(cfg: Config, startedAt: int, trace: seq<Event>, more: seq<Event>, now: int,
                          order: seq<IncidentId>, id: IncidentId)
    requires WellFormed(startedAt, trace + more + [Sweep(now, order)]) && id.IntegrationOffline? && id in order
    requires BackWithin(cfg, more, BackSince(cfg, startedAt, trace, id))
    requires var log, back := LogOf(Run(cfg, startedAt, trace).log, id), BackSince(cfg, startedAt, trace, id);
      |log| % 2 == 1 && now - back.value >= cfg.recoveryStableMs
    requires now - StartedAt(startedAt, trace + more) >= cfg.startupWarmupMs
    ensures var log := LogOf(Run(cfg, startedAt, trace).log, id);
      LogOf(Run(cfg, startedAt, trace + more + [Sweep(now, order)]).log, id) ==
        log + [Emission(id, false, 2, Last(log).firstObservedAt, now)]
  {
    hide Step, LogOf, WellFormed, FailingSince, BackSince;
    var all := trace + more + [Sweep(now, order)];
    assert Init(all) == trace + more;
    PrefixIsWellFormed(startedAt, all);
    RelapseChangesNothing(cfg, startedAt, trace, more, id);
    IntegrationChangesExactlyWhen(cfg, startedAt, all, id);
  }

  const MATTER := IntegrationOffline("matter")

  /** An integration fails, is reported after an hour, is healthy once, and fails again a second later. */
  function Relapse(): seq<Event> {
    [Integration("matter", false, 0), Sweep(HOUR, [MATTER]), Integration("matter", true, HOUR),
     Integration("matter", false, HOUR + 1000)]
  }

  lemma RunSnoc(cfg: Config, startedAt: int, trace: seq<Event>, event: Event)
    ensures Run(cfg, startedAt, trace + [event]) == Step(cfg, Run(cfg, startedAt, trace), event)
  {
    assert Init(trace + [event]) == trace;
  }

  lemma SweepsOne(s: State, now: int)
    requires MATTER in s.active && s.startedAt == 0 && HOUR <= now
    ensures Step(HUB, s, Sweep(now, [MATTER])) == SweepOne(HUB, s, MATTER, s.active[MATTER], now)
  {
    assert SweepTo(HUB, s, [MATTER], now, 0) == s;
  }

  /** The states that the relapse goes through. */
  lemma RelapseStates()
    ensures var watched := NewWatch(HUB, MATTER, 0, OtherProtocol, Mains);
      var back := Opened(watched, HOUR).(phase := Recovering, openBeforeRecovery := true, recoveredAt := Some(HOUR));
      Run(HUB, 0, Relapse()) == State(map[MATTER := back], 0, [Emission(MATTER, true, 1, 0, HOUR)])
  {
    hide Step, Run;
    var r := Relapse();
    var watched := NewWatch(HUB, MATTER, 0, OtherProtocol, Mains);
    var reported := Opened(watched, HOUR);
    var back := reported.(phase := Recovering, openBeforeRecovery := true, recoveredAt := Some(HOUR));
    var log := [Emission(MATTER, true, 1, 0, HOUR)];
    StartsEmpty();
    RunSnoc(HUB, 0, [], r[0]);
    RunSnoc(HUB, 0, [] + [r[0]], r[1]);
    RunSnoc(HUB, 0, [] + [r[0]] + [r[1]], r[2]);
    RunSnoc(HUB, 0, [] + [r[0]] + [r[1]] + [r[2]], r[3]);
    assert [] + [r[0]] + [r[1]] + [r[2]] + [r[3]] == r;
    FailsAndOpens(watched, reported, log);
    ReturnsAndFails(reported, back, log);
  }

  lemma StartsEmpty()
    ensures Run(HUB, 0, []) == State(map[], 0, [])
  {}

  lemma FailsAndOpens(watched: Incident, reported: Incident, log: seq<Emission>)
    requires watched == NewWatch(HUB, MATTER, 0, OtherProtocol, Mains) && reported == Opened(watched, HOUR)
    requires log == [Emission(MATTER, true, 1, 0, HOUR)]
    ensures Step(HUB, State(map[], 0, []), Relapse()[0]) == State(map[MATTER := watched], 0, [])
    ensures Step(HUB, State(map[MATTER := watched], 0, []), Relapse()[1]) == State(map[MATTER := reported], 0, log)
  {
    SweepsOne(State(map[MATTER := watched], 0, []), HOUR);
  }

  lemma ReturnsAndFails(reported: Incident, back: Incident, log: seq<Emission>)
    requires reported == Opened(NewWatch(HUB, MATTER, 0, OtherProtocol, Mains), HOUR)
    requires back == reported.(phase := Recovering, openBeforeRecovery := true, recoveredAt := Some(HOUR))
    ensures Step(HUB, State(map[MATTER := reported], 0, log), Relapse()[2]) == State(map[MATTER := back], 0, log)
    ensures Step(HUB, State(map[MATTER := back], 0, log), Relapse()[3]) == State(map[MATTER := back], 0, log)
  {}

  lemma RelapseReadings()
    ensures UnhealthySince(Relapse() + [Sweep(HOUR + STABLE, [MATTER])], MATTER) == Some(HOUR + 1000)
  {
    var r := Relapse();
    assert Init(r + [Sweep(HOUR + STABLE, [MATTER])]) == r;
    assert UnhealthySince(r[..3], MATTER) == None by { assert Last(r[..3]) == r[2]; }
    assert Init(r) == r[..3];
  }

  /** It has been failing ever since when the sweep two minutes after the healthy reading reports that it is back. */
  lemma FailingIsReportedBack()
    ensures var trace := Relapse() + [Sweep(HOUR + STABLE, [MATTER])];
      && WellFormed(0, trace) && UnhealthySince(trace, MATTER) == Some(HOUR + 1000)
      && Run(HUB, 0, trace).log == [Emission(MATTER, true, 1, 0, HOUR), Emission(MATTER, false, 2, 0, HOUR + STABLE)]
  {
    hide Run, Step, UnhealthySince;
    RelapseReadings();
    RelapseStates();
    RunSnoc(HUB, 0, Relapse(), Sweep(HOUR + STABLE, [MATTER]));
    SweepsOne(Run(HUB, 0, Relapse()), HOUR + STABLE);
  }
}
