/** The activity service as an object: its methods change the active incidents step by step. */
module Activity {
  import opened Prelude
  import opened Spec = Incidents

  class ActivityService {
    const cfg: Config
    var active: map<IncidentId, Incident>
    var startedAt: int
    /** Every incident handed to `record`. */
    ghost var log: seq<Emission>
    /** Every call so far, and the time of construction. */
    ghost var trace: seq<Event>
    ghost const constructedAt: int

    ghost function View(): State
      reads this
    {
      State(active, startedAt, log)
    }

    /** The object is where its history leads, and the clock never went back. */
    ghost predicate Valid()
      reads this
    {
      WellFormed(constructedAt, trace) && View() == Run(cfg, constructedAt, trace)
    }

    ghost predicate NotBefore(now: int)
      reads this
    {
      Clock(constructedAt, trace) <= now
    }

    constructor (cfg: Config, now: int)
      ensures Valid() && trace == [] && this.cfg == cfg && constructedAt == now
    {
      this.cfg := cfg;
      active, startedAt, log := map[], now, [];
      trace, constructedAt := [], now;
    }

    /** Appending a call to the history. */
    lemma Extend(event: Event)
      requires WellFormed(constructedAt, trace) && NotBefore(event.now)
      requires event.Sweep? ==> NoDuplicates(event.order)
      ensures WellFormed(constructedAt, trace + [event])
      ensures Run(cfg, constructedAt, trace + [event]) == Step(cfg, Run(cfg, constructedAt, trace), event)
    {
      hide Step;
      assert Init(trace + [event]) == trace;
    }

    method Start(now: int)
      requires Valid() && NotBefore(now)
      modifies this
      ensures Valid() && trace == old(trace) + [Event.Start(now)]
      ensures active == old(active) && startedAt == now && log == old(log)
    {
      hide Run, WellFormed, Clock;
      Extend(Event.Start(now));
      startedAt := now;
      trace := trace + [Event.Start(now)];
    }

    /** Withdraws an open incident that is younger than its threshold. */
    method ReclassifyPremature(id: IncidentId, incident: Incident, now: int) returns (done: bool)
      modifies `active, `log
      ensures done == IsPremature(cfg, id, incident, now)
      ensures View() == if done then Reclassify(cfg, old(View()), id, incident, now) else old(View())
    {
      if !incident.phase.Open? {
        return false;
      }
      var criticalAt := incident.firstObservedAt + ThresholdMs(cfg, id, incident.power);
      if now >= criticalAt {
        return false;
      }
      if incident.revision > 0 {
        log := log + [Emission(id, false, incident.revision + 1, incident.firstObservedAt, now)];
      }
      active := active[id := incident.(phase := Watching, revision := 0, openedAt := None, recoveredAt := None,
                                       lastObservedAt := now, criticalAt := criticalAt)];
      return true;
    }

    method ObserveUnavailable(device: Device, now: int)
      requires Valid() && NotBefore(now)
      modifies this
      ensures Valid() && trace == old(trace) + [Unavailable(device, now)]
      ensures View() == Spec.ObserveUnavailable(cfg, old(View()), device, now)
    {
      hide Run, WellFormed, Clock;
      Extend(Unavailable(device, now));
      trace := trace + [Unavailable(device, now)];
      if device.id == "" {
        return;
      }
      var id := DeviceOffline(device.id);
      if id !in active {
        var incident := Incident(id, Watching, 0, now, now, now + ThresholdMs(cfg, id, device.power),
                                 None, None, false, device.protocol, device.power);
        active := active[id := incident];
        return;
      }
      var existing := active[id];
      var done := ReclassifyPremature(id, existing, now);
      if done {
        return;
      }
      var phase := if existing.phase.Recovering? then Open else existing.phase;
      active := active[id := existing.(phase := phase, recoveredAt := None, lastObservedAt := now,
                                       criticalAt := CriticalAt(cfg, id, existing), protocol := device.protocol)];
    }

    method IncidentMonitorRecovery(device: Device, now: int)
      requires Valid() && NotBefore(now)
      modifies this
      ensures Valid() && trace == old(trace) + [Available(device, now)]
      ensures View() == ObserveAvailable(old(View()), device, now)
    {
      hide Run, WellFormed, Clock;
      Extend(Available(device, now));
      trace := trace + [Available(device, now)];
      var id := DeviceOffline(device.id);
      if id !in active {
        return;
      }
      var existing := active[id];
      match existing.phase {
        case Open =>
          active := active[id := existing.(phase := Recovering, openBeforeRecovery := true, recoveredAt := Some(now),
                                           lastObservedAt := now, protocol := device.protocol)];
        case Recovering =>
          var recoveredAt := if existing.recoveredAt.Some? then existing.recoveredAt else Some(now);
          active := active[id := existing.(recoveredAt := recoveredAt, lastObservedAt := now,
                                           protocol := device.protocol)];
        case _ =>
          active := active - {id};
      }
    }

    method ObserveIntegration(name: string, healthy: bool, now: int)
      requires Valid() && NotBefore(now)
      modifies this
      ensures Valid() && trace == old(trace) + [Integration(name, healthy, now)]
      ensures View() == Spec.ObserveIntegration(cfg, old(View()), name, healthy, now)
    {
      hide Run, WellFormed, Clock;
      Extend(Integration(name, healthy, now));
      trace := trace + [Integration(name, healthy, now)];
      var id := IntegrationKey(name);
      if healthy {
        if id in active {
          var existing := active[id];
          if existing.phase.Open? {
            active := active[id := existing.(phase := Recovering, openBeforeRecovery := true, recoveredAt := Some(now),
                                             lastObservedAt := now)];
          } else if !existing.phase.Recovering? {
            active := active - {id};
          }
        }
        return;
      }
      if id !in active {
        active := active[id := NewWatch(cfg, id, now, OtherProtocol, Mains)];
        return;
      }
      var existing := active[id];
      var done := ReclassifyPremature(id, existing, now);
      if done || !existing.phase.Watching? {
        return;
      }
      var criticalAt := CriticalAt(cfg, id, existing);
      if existing.criticalAt != criticalAt {
        active := active[id := existing.(criticalAt := criticalAt, lastObservedAt := now)];
      }
      if now >= criticalAt {
        active := active[id := Opened(existing, now)];
        log := log + [Emission(id, true, existing.revision + 1, existing.firstObservedAt, now)];
      }
    }

    method ObserveBattery(device: Device, level: Option<real>, now: int)
      requires Valid() && NotBefore(now)
      modifies this
      ensures Valid() && trace == old(trace) + [BatteryReading(device, level, now)]
      ensures View() == Spec.ObserveBattery(old(View()), device, level, now)
    {
      hide Run, WellFormed, Clock;
      Extend(BatteryReading(device, level, now));
      trace := trace + [BatteryReading(device, level, now)];
      if device.id == "" || level.None? {
        return;
      }
      var id, alarm := BatteryLevel(device.id), BatteryCritical(device.id);
      var battery := level.value;
      if battery <= 10.0 {
        if id in active && active[id].phase.Critical? {
          return;
        }
        var first, revision := now, 1;
        if id in active {
          first, revision := active[id].firstObservedAt, active[id].revision + 1;
        }
        active := active[id := Incident(alarm, Critical, revision, first, now, now, None, None, false, device.protocol,
                                        device.power)];
        log := log + [Emission(alarm, true, revision, first, now)];
      } else if battery <= 20.0 {
        if id !in active {
          active := active[id := Incident(id, Warning, 0, now, now, now, None, None, false, device.protocol,
                                          device.power)];
        }
      } else if battery > 25.0 && id in active {
        var existing := active[id];
        if existing.phase.Critical? {
          var revision := if existing.revision == 0 then 2 else existing.revision + 1;
          log := log + [Emission(existing.incidentId, false, revision, existing.firstObservedAt, now)];
        }
        active := active - {id};
      }
    }

    method ParentIntegrationIsOffline(protocol: Protocol) returns (offline: bool)
      ensures offline == ParentIsOffline(active, protocol)
    {
      match protocol {
        case Zigbee => offline := IsActiveOutage(IntegrationOffline("zigbee2mqtt"));
        case Matter => offline := IsActiveOutage(IntegrationOffline("matter"));
        case Thread => offline := IsActiveOutage(IntegrationOffline("thread"));
        case OtherProtocol => offline := false;
      }
    }

    predicate IsActiveOutage(id: IncidentId)
      reads this
    {
      id in active && OfflinePhase(active[id].phase)
    }

    /** One turn of the sweep's loop. */
    method SweepTurn(id: IncidentId, incident: Incident, now: int) returns (escalated: bool)
      modifies `active, `log
      ensures View() == SweepOne(cfg, old(View()), id, incident, now)
      ensures escalated == (log != old(log) && Last(log).opens)
    {
      escalated := false;
      var done := ReclassifyPremature(id, incident, now);
      if done {
        return;
      }
      if incident.phase.Recovering? {
        if incident.recoveredAt.None? || now - incident.recoveredAt.value < cfg.recoveryStableMs {
          return;
        }
        if incident.openBeforeRecovery || incident.revision > 0 {
          var revision := if incident.revision == 0 then 2 else incident.revision + 1;
          log := log + [Emission(id, false, revision, incident.firstObservedAt, now)];
        }
        active := active - {id};
        return;
      }
      if !incident.phase.Watching? {
        return;
      }
      var criticalAt := CriticalAt(cfg, id, incident);
      if incident.criticalAt != criticalAt {
        active := active[id := incident.(criticalAt := criticalAt)];
      }
      if now < criticalAt {
        return;
      }
      if !id.IntegrationOffline? {
        var blocked := ParentIntegrationIsOffline(incident.protocol);
        if blocked {
          return;
        }
      }
      active := active[id := Opened(incident, now)];
      log := log + [Emission(id, true, incident.revision + 1, incident.firstObservedAt, now)];
      escalated := true;
    }

    /** `order` enumerates the active incidents, as iterating over the stored object does. */
    method Sweep(now: int, order: seq<IncidentId>) returns (escalated: nat)
      requires Valid() && NotBefore(now)
      requires NoDuplicates(order) && (forall id :: id in order <==> id in active)
      modifies this
      ensures Valid() && trace == old(trace) + [Event.Sweep(now, order)]
      ensures View() == SweepAll(cfg, old(View()), now, order)
      ensures escalated == Openings(log) - Openings(old(log))
    {
      hide Run, WellFormed, Clock;
      Extend(Event.Sweep(now, order));
      trace := trace + [Event.Sweep(now, order)];
      escalated := 0;
      if now - startedAt < cfg.startupWarmupMs {
        return;
      }
      var snapshot := active;
      var i := 0;
      while i < |order|
        invariant 0 <= i <= |order|
        invariant trace == old(trace) + [Event.Sweep(now, order)]
        invariant View() == SweepTo(cfg, old(View()), order, now, i)
        invariant escalated == Openings(log) - Openings(old(log))
      {
        ghost var before := View();
        var escalates := SweepTurn(order[i], snapshot[order[i]], now);
        TurnOpenings(before, order[i], snapshot[order[i]], now);
        if escalates {
          escalated := escalated + 1;
        }
        i := i + 1;
      }
    }

    /** How much one turn adds to the number of openings. */
    lemma TurnOpenings(s: State, id: IncidentId, incident: Incident, now: int)
      ensures var after := SweepOne(cfg, s, id, incident, now);
        Openings(after.log) == Openings(s.log) + if after.log != s.log && Last(after.log).opens then 1 else 0
    {}
  }

  /** The number of openings in a log. */
  function Openings(log: seq<Emission>): nat {
    if log == [] then 0 else Openings(Init(log)) + if Last(log).opens then 1 else 0
  }
}
