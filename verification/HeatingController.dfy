/** The heating demand controller as an object. */
module HeatingController {
  import opened Prelude
  import opened H = Heating

  class HeatingDemandController {
    const cfg: Config
    var runtime: Runtime
    ghost const stored: Runtime
    /** Every evaluation since the process started. */
    ghost var trace: seq<Event>

    /** The object is where its history leads. */
    ghost predicate Valid()
      reads this
    {
      WellFormed(stored, trace) && runtime == Run(cfg, stored, trace)
    }

    /** A command accepted before the restart cannot be assumed to have been observed. */
    constructor (cfg: Config, stored: Runtime)
      requires stored.unknownSince.Some? ==> 0 < stored.unknownSince.value
      ensures Valid() && trace == [] && this.cfg == cfg && this.stored == stored
      ensures runtime.commandPending.None?
    {
      this.cfg, this.stored := cfg, stored;
      runtime := stored.(commandPending := None, lastSignature := None);
      trace := [];
    }

    lemma Extend(e: Event)
      requires WellFormed(stored, trace + [e])
      ensures Run(cfg, stored, trace + [e]) == Step(cfg, Run(cfg, stored, trace), e)
    {
      hide Step, WellFormed;
      assert Init(trace + [e]) == trace;
    }

    /** Classifies every radiator and decides what to ask of the boiler. */
    method EvaluateHeatingDemand(radiators: seq<Snapshot>, now: int) returns (evaluation: Evaluation)
      ensures evaluation == H.Evaluate(radiators, cfg, now, runtime.unknownSince)
    {
      var calling: seq<string>, unknown: seq<string> := [], [];
      var i := |radiators|;
      while i > 0
        invariant 0 <= i <= |radiators|
        invariant calling == CallingIds(radiators[i..], cfg)
        invariant unknown == UnknownIds(radiators[i..], cfg)
      {
        i := i - 1;
        assert radiators[i..][1..] == radiators[i + 1..];
        var demand := RadiatorDemand(radiators[i], cfg);
        if demand.Calling? {
          calling := [radiators[i].deviceId] + calling;
        }
        if demand.Unknown? || demand.Unavailable? {
          unknown := [radiators[i].deviceId] + unknown;
        }
      }
      assert radiators[0..] == radiators;
      var allUnknown := |radiators| > 0 && |unknown| == |radiators|;
      var desired, reason := None, StateUnknown;
      if |calling| > 0 {
        desired, reason := Some(Heat), SomeCalling;
      } else if |unknown| == 0 && |radiators| > 0 {
        desired, reason := Some(Off), NoneCalling;
      } else if !allUnknown {
        desired, reason := Some(Off), NoKnownCalling;
      } else {
        var since := now;
        if runtime.unknownSince.Some? && runtime.unknownSince.value != 0 {
          since := runtime.unknownSince.value;
        }
        if now - since >= GraceMs(cfg) {
          desired, reason := Some(Off), GraceExpired;
        }
      }
      var temperature := None;
      if desired == Some(Heat) && cfg.requestTemperatureEnabled {
        temperature := Some(cfg.requestTemperature);
      }
      evaluation := Evaluation(reason, calling, unknown, allUnknown, desired, temperature);
    }

    /** One evaluation; commands are sent only if `execute` allows it. */
    method Evaluate(e: Event)
      requires Valid() && e.Evaluated? && WellFormed(stored, trace + [e])
      modifies this
      ensures Valid() && trace == old(trace) + [e]
      ensures runtime == Step(cfg, old(runtime), e)
    {
      Extend(e);
      var evaluation := EvaluateHeatingDemand(e.radiators, e.now);
      if !evaluation.allUnknown {
        runtime := runtime.(unknownSince := None);
      } else if runtime.unknownSince.None? {
        runtime := runtime.(unknownSince := Some(e.now));
      }
      if e.execute && e.boiler.Some? && evaluation.desired.Some? {
        ApplyDesiredState(e.boiler.value, evaluation.desired.value, evaluation.desiredTemperature, e.appliedAt,
                          e.modeOutcome, e.temperatureOutcome);
      }
      trace := trace + [e];
    }

    /** An evaluation that stops at an unusable configuration. */
    method EvaluateWithoutConfig(now: int)
      requires Valid() && WellFormed(stored, trace + [ConfigError(now)])
      modifies this
      ensures Valid() && trace == old(trace) + [ConfigError(now)]
      ensures runtime == old(runtime).(consecutiveFailures := old(runtime).consecutiveFailures + 1)
    {
      Extend(ConfigError(now));
      runtime := runtime.(consecutiveFailures := runtime.consecutiveFailures + 1);
      trace := trace + [ConfigError(now)];
    }

    method ApplyDesiredState(boiler: Snapshot, desired: Mode, desiredTemperature: Option<real>, now: int,
                             modeOutcome: Outcome, temperatureOutcome: Outcome)
      modifies `runtime
      ensures runtime ==
        H.ApplyDesiredState(cfg, old(runtime), boiler, desired, desiredTemperature, now, modeOutcome,
                            temperatureOutcome)
    {
      var modeNeeded := boiler.mode != desired;
      var temperatureNeeded := NeedsTemperature(cfg, boiler, desired);
      var signature := Signature(desired, if temperatureNeeded then Some(cfg.requestTemperature) else None);
      if runtime.nextRetryAt.Some? && runtime.nextRetryAt.value > now {
        return;
      }
      if runtime.commandPending.Some? {
        if !modeNeeded && !temperatureNeeded && boiler.mode == runtime.commandPending.value.desiredMode {
          MarkObserved(boiler, now);
        }
        return;
      }
      if InCooldown(cfg, runtime, signature, now) {
        return;
      }
      if !modeNeeded && !temperatureNeeded {
        runtime := runtime.(consecutiveFailures := 0, retryDelaySeconds := 0, nextRetryAt := None);
        return;
      }
      var actions: seq<Action> := [];
      if modeNeeded {
        actions := actions + [SetMode(desired)];
      }
      if temperatureNeeded {
        actions := actions + [SetTemperature(cfg.requestTemperature)];
      }
      var pending := Pending(now, desired, desiredTemperature);
      assert actions == Actions(cfg, boiler, desired);
      SendBatch(actions, signature, pending, modeOutcome, temperatureOutcome);
    }

    /** Sends the actions in turn; the first failure ends the batch and schedules a retry. */
    method SendBatch(actions: seq<Action>, signature: Signature, pending: Pending, modeOutcome: Outcome,
                     temperatureOutcome: Outcome)
      modifies `runtime
      ensures runtime == Send(old(runtime), actions, signature, pending, modeOutcome, temperatureOutcome)
    {
      var i := 0;
      while i < |actions|
        invariant 0 <= i <= |actions|
        invariant Send(runtime, actions[i..], signature, pending, modeOutcome, temperatureOutcome) ==
                  Send(old(runtime), actions, signature, pending, modeOutcome, temperatureOutcome)
      {
        var action := actions[i];
        var outcome := OutcomeOf(action, modeOutcome, temperatureOutcome);
        assert actions[i..][0] == action && actions[i..][1..] == actions[i + 1..];
        if !outcome.accepted {
          var failures := runtime.consecutiveFailures + 1;
          var delay := RetryDelay(failures);
          runtime := runtime.(consecutiveFailures := failures, retryDelaySeconds := delay,
                              nextRetryAt := Some(outcome.at + delay * 1000),
                              lastCommand := Some(Command(Some(outcome.at), Some(action), Failed, None)),
                              commandPending := None);
          return;
        }
        runtime := runtime.(lastSignature := Some(signature),
                            lastCommand := Some(Command(Some(outcome.at), Some(action), Accepted, None)),
                            commandPending := Some(pending.(at := outcome.at)),
                            consecutiveFailures := 0, retryDelaySeconds := 0, nextRetryAt := None);
        i := i + 1;
      }
    }

    /** The boiler shows the requested mode and is not short of the requested temperature. */
    method MarkObserved(boiler: Snapshot, now: int)
      modifies `runtime
      ensures runtime == H.MarkObserved(old(runtime), boiler, now)
    {
      if runtime.commandPending.None? || boiler.mode != runtime.commandPending.value.desiredMode {
        return;
      }
      if TemperatureStillOff(boiler, runtime.commandPending.value.desiredTemperature) {
        return;
      }
      var command := Command(None, None, Observed, None);
      if runtime.lastCommand.Some? {
        command := runtime.lastCommand.value;
      }
      runtime := runtime.(lastCommand := Some(command.(observedAt := Some(now), result := Observed)),
                          verifiedAt := Some(now), commandPending := None);
    }
  }
}
