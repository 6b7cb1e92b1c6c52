/**
  The heating demand controller: what the radiators ask for, and the protocol by which the boiler is
  commanded.  Times are positive integer milliseconds, temperatures exact reals; an absent number is None.
 */
module Heating {
  import opened Prelude

  datatype Mode = Off | Heat | OtherMode(name: string)

  datatype Snapshot = Snapshot(
    deviceId: string, available: bool, isFresh: bool, mode: Mode, heatDemand: Option<bool>, reportsHeating: bool,
    target: Option<real>, current: Option<real>, temperatureWritable: bool)

  datatype Config = Config(
    deadband: real, unknownGraceSeconds: int, requestTemperatureEnabled: bool, requestTemperature: real,
    commandCooldownSeconds: int)

  // -------------------------------------------------------------- decision

  datatype Demand = Unavailable | Unknown | ModeOff | Calling | Satisfied

  datatype Reason = SomeCalling | NoneCalling | NoKnownCalling | StateUnknown | GraceExpired

  datatype Evaluation = Evaluation(reason: Reason, calling: seq<string>, unknown: seq<string>, allUnknown: bool,
                                   desired: Option<Mode>, desiredTemperature: Option<real>)

  function RadiatorDemand(s: Snapshot, cfg: Config): Demand {
    if !s.available then Unavailable
    else if !s.isFresh then Unknown
    else if s.mode.Off? then ModeOff
    else if s.heatDemand == Some(true) then Calling
    else if s.reportsHeating then Calling
    else if s.target.Some? && s.current.Some? then
      if s.target.value - s.current.value >= (if cfg.deadband == 0.0 then 0.3 else cfg.deadband) then Calling
      else Satisfied
    else Unknown
  }

  predicate IsUnknown(s: Snapshot, cfg: Config) {
    RadiatorDemand(s, cfg) in {Unknown, Unavailable}
  }

  function CallingIds(radiators: seq<Snapshot>, cfg: Config): seq<string> {
    if radiators == [] then []
    else (if RadiatorDemand(radiators[0], cfg).Calling? then [radiators[0].deviceId]
          else []) + CallingIds(radiators[1..], cfg)
  }

  function UnknownIds(radiators: seq<Snapshot>, cfg: Config): seq<string> {
    if radiators == [] then []
    else (if IsUnknown(radiators[0], cfg) then [radiators[0].deviceId] else []) + UnknownIds(radiators[1..], cfg)
  }

  function GraceMs(cfg: Config): int {
    (if cfg.unknownGraceSeconds == 0 then 300 else cfg.unknownGraceSeconds) * 1000
  }

  function Evaluate(radiators: seq<Snapshot>, cfg: Config, now: int, unknownSince: Option<int>): Evaluation {
    var calling, unknown := CallingIds(radiators, cfg), UnknownIds(radiators, cfg);
    var allUnknown := radiators != [] && |unknown| == |radiators|;
    var since := if unknownSince.Some? && unknownSince.value != 0 then unknownSince.value else now;
    var (reason, desired) :=
      if calling != [] then (SomeCalling, Some(Heat))
      else if unknown == [] && radiators != [] then (NoneCalling, Some(Off))
      else if !allUnknown then (NoKnownCalling, Some(Off))
      else if now - since >= GraceMs(cfg) then (GraceExpired, Some(Off))
      else (StateUnknown, None);
    Evaluation(reason, calling, unknown, allUnknown, desired,
               if desired == Some(Heat) && cfg.requestTemperatureEnabled then Some(cfg.requestTemperature) else None)
  }

  // -------------------------------------------------------------- protocol

  datatype Action = SetMode(mode: Mode) | SetTemperature(temperature: real)
  datatype CommandResult = Accepted | Failed | Observed
  datatype Command = Command(at: Option<int>, action: Option<Action>, result: CommandResult, observedAt: Option<int>)
  datatype Pending = Pending(at: int, desiredMode: Mode, desiredTemperature: Option<real>)
  datatype Signature = Signature(mode: Mode, temperature: Option<real>)

  datatype Runtime = Runtime(
    unknownSince: Option<int>, commandPending: Option<Pending>, lastCommand: Option<Command>,
    consecutiveFailures: nat, retryDelaySeconds: int, nextRetryAt: Option<int>,
    verifiedAt: Option<int>, lastSignature: Option<Signature>)

  /** How the adapter answers a command, and when. */
  datatype Outcome = Outcome(accepted: bool, at: int)

  /**
    One evaluation: it starts at `now` and comes to act on the boiler at `appliedAt`.  `execute` says that commands
    may be sent: asked for, enabled, and every provider healthy.
   */
  datatype Event =
    | Evaluated(now: int, appliedAt: int, radiators: seq<Snapshot>, boiler: Option<Snapshot>, execute: bool,
                modeOutcome: Outcome, temperatureOutcome: Outcome)
    | ConfigError(now: int)

  /** A batch of commands sent by one evaluation. */
  datatype Batch = Batch(startedAt: int, signature: Signature, accepted: bool, endedAt: int, failures: nat)

  function Abs(x: real): real {
    if x < 0.0 then -x else x
  }

  predicate NeedsMode(boiler: Snapshot, desired: Mode) {
    boiler.mode != desired
  }

  predicate NeedsTemperature(cfg: Config, boiler: Snapshot, desired: Mode) {
    && desired.Heat? && cfg.requestTemperatureEnabled && boiler.temperatureWritable
    && (boiler.target.None? || Abs(boiler.target.value - cfg.requestTemperature) >= 0.1)
  }

  function SignatureOf(cfg: Config, boiler: Snapshot, desired: Mode): Signature {
    Signature(desired, if NeedsTemperature(cfg, boiler, desired) then Some(cfg.requestTemperature) else None)
  }

  function Actions(cfg: Config, boiler: Snapshot, desired: Mode): seq<Action> {
    (if NeedsMode(boiler, desired) then [SetMode(desired)] else []) +
    (if NeedsTemperature(cfg, boiler, desired) then [SetTemperature(cfg.requestTemperature)] else [])
  }

  /** Seconds to wait after the given number of failures in a row. */
  function RetryDelay(failures: nat): int
    requires failures >= 1
  {
    var exponent := if failures - 1 < 4 then failures - 1 else 4;
    var wanted := 15 * Power2(exponent);
    var floored := if wanted < 15 then 15 else wanted;
    if floored > 300 then 300 else floored
  }

  function AfterAccepted(rt: Runtime, action: Action, at: int, signature: Signature, pending: Pending): Runtime {
    rt.(lastSignature := Some(signature), lastCommand := Some(Command(Some(at), Some(action), Accepted, None)),
        commandPending := Some(pending.(at := at)),
        consecutiveFailures := 0, retryDelaySeconds := 0, nextRetryAt := None)
  }

  function AfterFailed(rt: Runtime, action: Action, at: int): Runtime {
    var failures := rt.consecutiveFailures + 1;
    rt.(consecutiveFailures := failures, retryDelaySeconds := RetryDelay(failures),
        nextRetryAt := Some(at + RetryDelay(failures) * 1000),
        lastCommand := Some(Command(Some(at), Some(action), Failed, None)), commandPending := None)
  }

  function OutcomeOf(action: Action, modeOutcome: Outcome, temperatureOutcome: Outcome): Outcome {
    if action.SetMode? then modeOutcome else temperatureOutcome
  }

  /** Sends the actions in turn, stopping at the first that fails. */
  function Send(rt: Runtime, actions: seq<Action>, signature: Signature, pending: Pending, modeOutcome: Outcome,
                temperatureOutcome: Outcome): Runtime
    decreases |actions|
  {
    if actions == [] then rt
    else
      var outcome := OutcomeOf(actions[0], modeOutcome, temperatureOutcome);
      if outcome.accepted
      then Send(AfterAccepted(rt, actions[0], outcome.at, signature, pending), actions[1..], signature, pending,
                modeOutcome, temperatureOutcome)
      else AfterFailed(rt, actions[0], outcome.at)
  }

  predicate TemperatureStillOff(boiler: Snapshot, wanted: Option<real>) {
    wanted.Some? && boiler.target.Some? && Abs(boiler.target.value - wanted.value) >= 0.1
  }

  function MarkObserved(rt: Runtime, boiler: Snapshot, now: int): Runtime {
    if rt.commandPending.None? || boiler.mode != rt.commandPending.value.desiredMode then rt
    else if TemperatureStillOff(boiler, rt.commandPending.value.desiredTemperature) then rt
    else
      var command := if rt.lastCommand.Some? then rt.lastCommand.value else Command(None, None, Observed, None);
      rt.(lastCommand := Some(command.(observedAt := Some(now), result := Observed)), verifiedAt := Some(now),
          commandPending := None)
  }

  predicate InCooldown(cfg: Config, rt: Runtime, signature: Signature, now: int) {
    && rt.lastCommand.Some? && rt.lastCommand.value.result in {Accepted, Observed}
    && rt.lastSignature == Some(signature)
    && rt.lastCommand.value.at.Some? && rt.lastCommand.value.at.value != 0
    && now - rt.lastCommand.value.at.value < cfg.commandCooldownSeconds * 1000
  }

  predicate WaitsForRetry(rt: Runtime, now: int) {
    rt.nextRetryAt.Some? && rt.nextRetryAt.value > now
  }

  /** Whether an evaluation that may execute sends commands. */
  predicate SendsBatch(cfg: Config, rt: Runtime, boiler: Snapshot, desired: Mode, now: int) {
    && !WaitsForRetry(rt, now)
    && rt.commandPending.None?
    && !InCooldown(cfg, rt, SignatureOf(cfg, boiler, desired), now)
    && (NeedsMode(boiler, desired) || NeedsTemperature(cfg, boiler, desired))
  }

  function ApplyDesiredState(cfg: Config, rt: Runtime, boiler: Snapshot, desired: Mode,
                             desiredTemperature: Option<real>,
                             now: int, modeOutcome: Outcome, temperatureOutcome: Outcome): Runtime {
    if WaitsForRetry(rt, now) then rt
    else if rt.commandPending.Some? then
      if !NeedsMode(boiler, desired) && !NeedsTemperature(cfg, boiler, desired) &&
        boiler.mode == rt.commandPending.value.desiredMode
      then MarkObserved(rt, boiler, now) else rt
    else if InCooldown(cfg, rt, SignatureOf(cfg, boiler, desired), now) then rt
    else if !NeedsMode(boiler, desired) && !NeedsTemperature(cfg, boiler, desired) then
      rt.(consecutiveFailures := 0, retryDelaySeconds := 0, nextRetryAt := None)
    else
      Send(rt, Actions(cfg, boiler, desired), SignatureOf(cfg, boiler, desired),
           Pending(now, desired, desiredTemperature), modeOutcome, temperatureOutcome)
  }

  function EvaluationOf(cfg: Config, rt: Runtime, e: Event): Evaluation
    requires e.Evaluated?
  {
    Evaluate(e.radiators, cfg, e.now, rt.unknownSince)
  }

  function NoteUnknown(cfg: Config, rt: Runtime, e: Event): Runtime
    requires e.Evaluated?
  {
    rt.(unknownSince :=
      if !EvaluationOf(cfg, rt, e).allUnknown then None
      else if rt.unknownSince.Some? then rt.unknownSince else Some(e.now))
  }

  predicate MayExecute(cfg: Config, rt: Runtime, e: Event) {
    e.Evaluated? && e.execute && e.boiler.Some? && EvaluationOf(cfg, rt, e).desired.Some?
  }

  function Step(cfg: Config, rt: Runtime, e: Event): Runtime {
    match e
    case ConfigError(_) => rt.(consecutiveFailures := rt.consecutiveFailures + 1)
    case Evaluated(_, appliedAt, _, boiler, _, modeOutcome, temperatureOutcome) =>
      var noted := NoteUnknown(cfg, rt, e);
      if MayExecute(cfg, rt, e) then
        var evaluation := EvaluationOf(cfg, rt, e);
        ApplyDesiredState(cfg, noted, boiler.value, evaluation.desired.value, evaluation.desiredTemperature, appliedAt,
                          modeOutcome, temperatureOutcome)
      else noted
  }

  predicate Sends(cfg: Config, rt: Runtime, e: Event) {
    MayExecute(cfg, rt, e) && SendsBatch(cfg, rt, e.boiler.value, EvaluationOf(cfg, rt, e).desired.value, e.appliedAt)
  }

  /** The batch an event sends, seen from its result. */
  function BatchOf(cfg: Config, rt: Runtime, e: Event): Option<Batch> {
    if !Sends(cfg, rt, e) then None
    else
      var after := Step(cfg, rt, e);
      var lastAt := if after.lastCommand.Some? then after.lastCommand.value.at else None;
      Some(Batch(e.appliedAt, SignatureOf(cfg, e.boiler.value, EvaluationOf(cfg, rt, e).desired.value),
                 after.commandPending.Some?, if lastAt.Some? then lastAt.value
                                             else e.appliedAt, after.consecutiveFailures))
  }

  /** The runtime after a run of a process that started from a stored runtime. */
  function Run(cfg: Config, stored: Runtime, trace: seq<Event>): Runtime {
    if trace == [] then stored.(commandPending := None, lastSignature := None)
    else Step(cfg, Run(cfg, stored, Init(trace)), Last(trace))
  }

  /** The batch sent by the k-th event of a run. */
  function BatchAt(cfg: Config, stored: Runtime, trace: seq<Event>, k: nat): Option<Batch>
    requires k < |trace|
  {
    BatchOf(cfg, Run(cfg, stored, trace[..k]), trace[k])
  }

  function EndOf(e: Event): int {
    if e.Evaluated? then e.temperatureOutcome.at else e.now
  }

  /** When an event looks at the retry time and the cooldown. */
  function ActsAt(e: Event): int {
    if e.Evaluated? then e.appliedAt else e.now
  }

  /** A positive clock that does not go back, across answers of the adapter too. */
  ghost predicate WellFormed(stored: Runtime, trace: seq<Event>) {
    && (stored.unknownSince.Some? ==>
          0 < stored.unknownSince.value && forall k | 0 <= k < |trace| :: stored.unknownSince.value <= trace[k].now)
    && (forall k | 0 <= k < |trace| :: 0 < trace[k].now)
    && (forall k | 0 <= k < |trace| && trace[k].Evaluated? ::
          trace[k].now <= trace[k].appliedAt <= trace[k].modeOutcome.at <= trace[k].temperatureOutcome.at)
    && (forall i, j | 0 <= i < j < |trace| :: EndOf(trace[i]) <= trace[j].now)
  }

  lemma PrefixIsWellFormed(stored: Runtime, trace: seq<Event>, n: nat)
    requires WellFormed(stored, trace) && n <= |trace|
    ensures WellFormed(stored, trace[..n])
  {}

  // ------------------------------------------------- the decision, in runs

  lemma {:induction false} IdsCount(radiators: seq<Snapshot>, cfg: Config)
    ensures CallingIds(radiators, cfg) != [] <==>
      exists i :: 0 <= i < |radiators| && RadiatorDemand(radiators[i], cfg).Calling?
    ensures |UnknownIds(radiators, cfg)| <= |radiators|
    ensures |UnknownIds(radiators, cfg)| == |radiators| <==>
      forall i | 0 <= i < |radiators| :: IsUnknown(radiators[i], cfg)
    ensures UnknownIds(radiators, cfg) == [] <==> forall i | 0 <= i < |radiators| :: !IsUnknown(radiators[i], cfg)
  {
    if radiators == [] {
    } else {
      IdsCount(radiators[1..], cfg);
      assert forall i | 0 <= i < |radiators| - 1 :: radiators[1..][i] == radiators[i + 1];
    }
  }

  /**
    A radiator that can be heard and is not switched off calls exactly if it says so or is colder than it should be by
    the deadband; it is unknown exactly if it cannot be heard, or says neither and lacks a temperature.
   */
  lemma CallsExactlyWhen(s: Snapshot, cfg: Config)
    ensures var heard, saysSo := s.available && s.isFresh, s.heatDemand == Some(true) || s.reportsHeating;
      var deadband := if cfg.deadband == 0.0 then 0.3 else cfg.deadband;
      && (RadiatorDemand(s, cfg).Calling? <==>
            heard && s.mode != Off &&
              (saysSo || (s.target.Some? && s.current.Some? && s.current.value + deadband <= s.target.value)))
      && (IsUnknown(s, cfg) <==> !heard || (s.mode != Off && !saysSo && (s.target.None? || s.current.None?)))
  {}

  /** All radiators of an evaluation are unknown, and there is at least one. */
  predicate FoundAllUnknown(cfg: Config, e: Event) {
    e.Evaluated? ==> e.radiators != [] && forall i | 0 <= i < |e.radiators| :: IsUnknown(e.radiators[i], cfg)
  }

  predicate SomeRadiatorCalls(cfg: Config, radiators: seq<Snapshot>) {
    exists i :: 0 <= i < |radiators| && RadiatorDemand(radiators[i], cfg).Calling?
  }

  /** Since event `i`, an evaluation, every completed evaluation of the run found all radiators unknown. */
  predicate UnknownFrom(cfg: Config, trace: seq<Event>, i: nat) {
    && i < |trace| && trace[i].Evaluated?
    && forall k | i <= k < |trace| :: FoundAllUnknown(cfg, trace[k])
  }

  /** The first evaluation of the longest such series, which may have begun before the process did. */
  function UnknownSince(cfg: Config, stored: Runtime, trace: seq<Event>): Option<int> {
    if trace == [] then stored.unknownSince
    else if !FoundAllUnknown(cfg, Last(trace)) then None
    else
      var before := UnknownSince(cfg, stored, Init(trace));
      if before.Some? || !Last(trace).Evaluated? then before else Some(Last(trace).now)
  }

  lemma UnknownFromStep(cfg: Config, trace: seq<Event>, i: nat)
    requires trace != []
    ensures UnknownFrom(cfg, trace, i) <==>
      && FoundAllUnknown(cfg, Last(trace))
      && if i == |trace| - 1 then Last(trace).Evaluated? else UnknownFrom(cfg, Init(trace), i)
  {}

  /** The series was already under way when the process started. */
  predicate UnknownFromStart(cfg: Config, stored: Runtime, trace: seq<Event>) {
    stored.unknownSince.Some? && forall k | 0 <= k < |trace| :: FoundAllUnknown(cfg, trace[k])
  }

  lemma {:induction false} UnknownSinceIsEarliest(cfg: Config, stored: Runtime, trace: seq<Event>)
    requires WellFormed(stored, trace)
    ensures var since := UnknownSince(cfg, stored, trace);
      && (forall i: nat | UnknownFrom(cfg, trace, i) :: since.Some? && since.value <= trace[i].now)
      && (UnknownFromStart(cfg, stored, trace) ==> since == stored.unknownSince)
      && (since.Some? ==> since.value > 0)
      && (since.Some? ==>
            || (UnknownFromStart(cfg, stored, trace) && since == stored.unknownSince)
            || exists i: nat :: UnknownFrom(cfg, trace, i) && trace[i].now == since.value)
  {
    if trace == [] {
    } else {
      var before, last := Init(trace), |trace| - 1;
      PrefixIsWellFormed(stored, trace, last);
      UnknownSinceIsEarliest(cfg, stored, before);
      forall i: nat {
        UnknownFromStep(cfg, trace, i);
      }
      assert UnknownFromStart(cfg, stored, trace) <==>
        UnknownFromStart(cfg, stored, before) && FoundAllUnknown(cfg, trace[last]);
      if UnknownSince(cfg, stored, trace).Some? {
        if UnknownSince(cfg, stored, before).None? {
          assert UnknownFrom(cfg, trace, last);
        } else if !UnknownFromStart(cfg, stored, before) {
          var i: nat :| UnknownFrom(cfg, before, i) && before[i].now == UnknownSince(cfg, stored, before).value;
          assert UnknownFrom(cfg, trace, i);
        }
      }
    }
  }

  /** The runtime records the start of the unknown state as the run has it. */
  lemma {:induction false} RuntimeKnowsUnknownSince(cfg: Config, stored: Runtime, trace: seq<Event>)
    ensures Run(cfg, stored, trace).unknownSince == UnknownSince(cfg, stored, trace)
  {
    if trace == [] {
    } else {
      RuntimeKnowsUnknownSince(cfg, stored, Init(trace));
      StepKeepsUnknownSince(cfg, Run(cfg, stored, Init(trace)), Last(trace));
      if Last(trace).Evaluated? {
        IdsCount(Last(trace).radiators, cfg);
      }
    }
  }

  lemma {:induction false} SendKeepsUnknownSince(rt: Runtime, actions: seq<Action>, signature: Signature,
                                                 pending: Pending, modeOutcome: Outcome, temperatureOutcome: Outcome)
    ensures Send(rt, actions, signature, pending, modeOutcome, temperatureOutcome).unknownSince == rt.unknownSince
    decreases |actions|
  {
    if actions == [] {
    } else {
      var outcome := OutcomeOf(actions[0], modeOutcome, temperatureOutcome);
      SendKeepsUnknownSince(AfterAccepted(rt, actions[0], outcome.at, signature, pending), actions[1..], signature,
                            pending, modeOutcome, temperatureOutcome);
    }
  }

  lemma StepKeepsUnknownSince(cfg: Config, rt: Runtime, e: Event)
    ensures Step(cfg, rt, e).unknownSince == if e.Evaluated? then NoteUnknown(cfg, rt, e).unknownSince
                                             else rt.unknownSince
  {
    if MayExecute(cfg, rt, e) {
      var evaluation := EvaluationOf(cfg, rt, e);
      var desired := evaluation.desired.value;
      SendKeepsUnknownSince(NoteUnknown(cfg, rt, e), Actions(cfg, e.boiler.value, desired),
                            SignatureOf(cfg, e.boiler.value, desired),
                            Pending(e.appliedAt, desired, evaluation.desiredTemperature),
                            e.modeOutcome, e.temperatureOutcome);
    }
  }

  /** Some series of all-unknown evaluations has lasted the grace period at the end of the run. */
  ghost predicate GraceHasPassed(cfg: Config, stored: Runtime, trace: seq<Event>)
    requires trace != []
  {
    || (UnknownFromStart(cfg, stored, trace) && Last(trace).now - stored.unknownSince.value >= GraceMs(cfg))
    || exists i: nat :: UnknownFrom(cfg, trace, i) && Last(trace).now - trace[i].now >= GraceMs(cfg)
  }

  lemma GraceFollowsSince(cfg: Config, stored: Runtime, trace: seq<Event>)
    requires WellFormed(stored, trace) && trace != []
    ensures var since := UnknownSince(cfg, stored, trace);
      GraceHasPassed(cfg, stored, trace) <==> since.Some? && Last(trace).now - since.value >= GraceMs(cfg)
  {
    UnknownSinceIsEarliest(cfg, stored, trace);
    hide UnknownFrom, UnknownSince, WellFormed, GraceMs;
  }

  /**
    Heat is asked for exactly when a radiator calls; the controller fails off exactly when every evaluation for
    the grace period found all radiators unknown; it is undecided exactly when all are unknown for less than that.
   */
  lemma DecisionIsExact(cfg: Config, stored: Runtime, trace: seq<Event>)
    requires WellFormed(stored, trace) && trace != [] && Last(trace).Evaluated?
    ensures var evaluation := EvaluationOf(cfg, Run(cfg, stored, Init(trace)), Last(trace));
      var calls := SomeRadiatorCalls(cfg, Last(trace).radiators);
      && (evaluation.desired == Some(Heat) <==> calls)
      && (evaluation.reason.GraceExpired? <==> GraceHasPassed(cfg, stored, trace))
      && (evaluation.desired.None? <==> FoundAllUnknown(cfg, Last(trace)) && !GraceHasPassed(cfg, stored, trace))
      && (evaluation.desired == Some(Off) <==>
           !calls && (FoundAllUnknown(cfg, Last(trace)) ==> GraceHasPassed(cfg, stored, trace)))
  {
    var before, e := Init(trace), Last(trace);
    PrefixIsWellFormed(stored, trace, |trace| - 1);
    RuntimeKnowsUnknownSince(cfg, stored, before);
    UnknownSinceIsEarliest(cfg, stored, before);
    UnknownSinceIsEarliest(cfg, stored, trace);
    GraceFollowsSince(cfg, stored, trace);
    IdsCount(e.radiators, cfg);
    hide UnknownFrom, UnknownFromStart, GraceHasPassed, Run, WellFormed, GraceMs, RadiatorDemand, IsUnknown;
    if FoundAllUnknown(cfg, e) {
      assert IsUnknown(e.radiators[0], cfg);
    }
  }

  // ------------------------------------------------- the protocol, in runs

  /** What is known after sending at least one action. */
  lemma {:induction false} SendResult(rt: Runtime, actions: seq<Action>, signature: Signature, pending: Pending,
                                      modeOutcome: Outcome, temperatureOutcome: Outcome)
    requires actions != []
    ensures var after := Send(rt, actions, signature, pending, modeOutcome, temperatureOutcome);
      var allAccepted := forall i | 0 <= i < |actions| ::
        OutcomeOf(actions[i], modeOutcome, temperatureOutcome).accepted;
      var firstAccepted := OutcomeOf(actions[0], modeOutcome, temperatureOutcome).accepted;
      && after.lastCommand.Some? && after.lastCommand.value.at.Some?
      && (exists i ::
           0 <= i < |actions| &&
             after.lastCommand.value.at.value == OutcomeOf(actions[i], modeOutcome, temperatureOutcome).at)
      && (allAccepted ==>
            && after.commandPending.Some? && after.commandPending.value.desiredMode == pending.desiredMode
            && after.lastCommand.value.result == Accepted && after.nextRetryAt.None?
            && after.consecutiveFailures == 0 && after.lastSignature == Some(signature))
      && (!allAccepted ==>
            && after.commandPending.None? && after.lastCommand.value.result == Failed
            && after.consecutiveFailures == (if firstAccepted then 1 else rt.consecutiveFailures + 1)
            && after.nextRetryAt ==
                 Some(after.lastCommand.value.at.value + RetryDelay(after.consecutiveFailures) * 1000))
    decreases |actions|
  {
    var outcome := OutcomeOf(actions[0], modeOutcome, temperatureOutcome);
    if outcome.accepted {
      var next := AfterAccepted(rt, actions[0], outcome.at, signature, pending);
      var rest := actions[1..];
      assert forall i | 0 <= i < |rest| :: rest[i] == actions[i + 1];
      assert forall i | 0 < i < |actions| :: actions[i] == rest[i - 1];
      if rest != [] {
        SendResult(next, rest, signature, pending, modeOutcome, temperatureOutcome);
      }
    }
  }

  /** All commands of a batch were accepted by the adapter. */
  predicate AllAccepted(cfg: Config, rt: Runtime, e: Event)
    requires MayExecute(cfg, rt, e)
  {
    var desired := EvaluationOf(cfg, rt, e).desired.value;
    && (NeedsMode(e.boiler.value, desired) ==> e.modeOutcome.accepted)
    && (NeedsTemperature(cfg, e.boiler.value, desired) ==> e.temperatureOutcome.accepted)
  }

  /** The first command of a batch was accepted by the adapter. */
  predicate FirstAccepted(cfg: Config, rt: Runtime, e: Event)
    requires MayExecute(cfg, rt, e)
  {
    var desired := EvaluationOf(cfg, rt, e).desired.value;
    if NeedsMode(e.boiler.value, desired) then e.modeOutcome.accepted else e.temperatureOutcome.accepted
  }

  /** A batch is accepted as a whole or fails, and leaves the runtime accordingly. */
  lemma BatchResult(cfg: Config, rt: Runtime, e: Event)
    requires BatchOf(cfg, rt, e).Some?
    ensures var batch, after := BatchOf(cfg, rt, e).value, Step(cfg, rt, e);
      && batch.accepted == AllAccepted(cfg, rt, e)
      && batch.endedAt in {e.modeOutcome.at, e.temperatureOutcome.at}
      && after.lastCommand.Some? && after.lastCommand.value.at == Some(batch.endedAt)
      && batch.failures == after.consecutiveFailures
      && (batch.accepted ==>
            && after.commandPending.Some? && after.commandPending.value.desiredMode == batch.signature.mode
            && after.lastCommand.value.result == Accepted && after.nextRetryAt.None?
            && batch.failures == 0 && after.lastSignature == Some(batch.signature))
      && (!batch.accepted ==>
            && after.commandPending.None? && after.lastCommand.value.result == Failed
            && batch.failures == (if FirstAccepted(cfg, rt, e) then 1 else rt.consecutiveFailures + 1)
            && after.nextRetryAt == Some(batch.endedAt + RetryDelay(batch.failures) * 1000))
  {
    var evaluation := EvaluationOf(cfg, rt, e);
    var desired, boiler := evaluation.desired.value, e.boiler.value;
    var noted := NoteUnknown(cfg, rt, e);
    var actions := Actions(cfg, boiler, desired);
    assert SendsBatch(cfg, noted, boiler, desired, e.appliedAt);
    SendResult(noted, actions, SignatureOf(cfg, boiler, desired),
               Pending(e.appliedAt, desired, evaluation.desiredTemperature), e.modeOutcome, e.temperatureOutcome);
    assert AllAccepted(cfg, rt, e) <==>
      forall i | 0 <= i < |actions| :: OutcomeOf(actions[i], e.modeOutcome, e.temperatureOutcome).accepted by {
      if NeedsMode(boiler, desired) { assert actions[0] == SetMode(desired); }
      if NeedsTemperature(cfg, boiler, desired) {
        assert actions[|actions| - 1] == SetTemperature(cfg.requestTemperature);
      }
    }
  }

  /** The last event of a run that sent a batch. */
  function LastBatch(cfg: Config, stored: Runtime, trace: seq<Event>): (k: Option<nat>)
    ensures k.Some? ==> k.value < |trace|
  {
    if trace == [] then None
    else if BatchOf(cfg, Run(cfg, stored, Init(trace)), Last(trace)).Some? then Some(|trace| - 1)
    else LastBatch(cfg, stored, Init(trace))
  }

  lemma {:induction false} LastBatchIsLast(cfg: Config, stored: Runtime, trace: seq<Event>)
    ensures var last := LastBatch(cfg, stored, trace);
      && (last.Some? ==> BatchAt(cfg, stored, trace, last.value).Some?)
      && (forall k: nat | k < |trace| && BatchAt(cfg, stored, trace, k).Some? :: last.Some? && k <= last.value)
  {
    if trace == [] {
    } else {
      var before, n := Init(trace), |trace| - 1;
      LastBatchIsLast(cfg, stored, before);
      assert trace[..n] == before;
      forall k: nat | k < n ensures BatchAt(cfg, stored, trace, k) == BatchAt(cfg, stored, before, k) {
        assert before[..k] == trace[..k];
      }
    }
  }

  /** After event `i`, an executing evaluation before the end of the run saw the boiler in a mode. */
  predicate SawMode(trace: seq<Event>, i: nat, mode: Mode) {
    exists k :: i < k < |trace| && trace[k].Evaluated? && trace[k].execute && trace[k].boiler.Some? &&
      trace[k].boiler.value.mode == mode
  }

  /** After event `i`, the clock reached a time before the end of the run. */
  predicate Reached(trace: seq<Event>, i: nat, time: int) {
    exists k :: i < k < |trace| && ActsAt(trace[k]) >= time
  }

  /** What the runtime remembers of the last batch. */
  ghost predicate Remembers(cfg: Config, rt: Runtime, trace: seq<Event>, i: nat, batch: Batch) {
    if batch.accepted then
      && (if rt.commandPending.Some? then rt.commandPending.value.desiredMode == batch.signature.mode
          else SawMode(trace, i, batch.signature.mode))
      && rt.lastSignature == Some(batch.signature)
      && rt.lastCommand.Some? && rt.lastCommand.value.result in {Accepted, Observed} &&
        rt.lastCommand.value.at == Some(batch.endedAt)
    else
      && rt.commandPending.None? && batch.failures >= 1
      && var retryAt := batch.endedAt + RetryDelay(batch.failures) * 1000;
         rt.nextRetryAt == Some(retryAt) || Reached(trace, i, retryAt)
  }

  ghost predicate PendingOk(rt: Runtime) {
    rt.commandPending.Some? ==>
      && rt.lastCommand.Some? && rt.lastCommand.value.result == Accepted
      && rt.nextRetryAt.None?
  }

  /** An event without a batch keeps what is remembered of the last one. */
  lemma QuietStepRemembers(cfg: Config, rt: Runtime, trace: seq<Event>, i: nat, batch: Batch)
    requires trace != [] && i < |trace| - 1
    requires BatchOf(cfg, rt, Last(trace)).None?
    requires PendingOk(rt) && Remembers(cfg, rt, Init(trace), i, batch)
    ensures Remembers(cfg, Step(cfg, rt, Last(trace)), trace, i, batch)
  {}

  lemma QuietStepIsOk(cfg: Config, rt: Runtime, e: Event)
    requires PendingOk(rt) && BatchOf(cfg, rt, e).None?
    ensures PendingOk(Step(cfg, rt, e))
    ensures Step(cfg, rt, e).commandPending.Some? ==> rt.commandPending.Some?
  {}

  lemma {:induction false} ProtocolInvariant(cfg: Config, stored: Runtime, trace: seq<Event>)
    ensures var rt, last := Run(cfg, stored, trace), LastBatch(cfg, stored, trace);
      && PendingOk(rt)
      && (rt.commandPending.Some? ==> last.Some?)
      && (last.Some? ==>
           BatchAt(cfg, stored, trace, last.value).Some? &&
             Remembers(cfg, rt, trace, last.value, BatchAt(cfg, stored, trace, last.value).value))
  {
    if trace == [] {
    } else {
      var before, n, e := Init(trace), |trace| - 1, Last(trace);
      ProtocolInvariant(cfg, stored, before);
      var rt := Run(cfg, stored, before);
      assert trace[..n] == before;
      if BatchOf(cfg, rt, e).Some? {
        BatchResult(cfg, rt, e);
      } else {
        QuietStepIsOk(cfg, rt, e);
        var last := LastBatch(cfg, stored, before);
        if last.Some? {
          assert before[..last.value] == trace[..last.value];
          QuietStepRemembers(cfg, rt, trace, last.value, BatchAt(cfg, stored, before, last.value).value);
        }
      }
    }
  }

  /** In every run, a pending command has been accepted and no retry is scheduled. */
  lemma PendingIsAccepted(cfg: Config, stored: Runtime, trace: seq<Event>)
    ensures var rt := Run(cfg, stored, trace);
      rt.commandPending.Some? ==>
        && rt.lastCommand.Some? && rt.lastCommand.value.result == Accepted && rt.nextRetryAt.None?
        && var last := LastBatch(cfg, stored, trace);
           && last.Some? && BatchAt(cfg, stored, trace, last.value).Some?
           && BatchAt(cfg, stored, trace, last.value).value.signature.mode == rt.commandPending.value.desiredMode
  {
    ProtocolInvariant(cfg, stored, trace);
  }

  /** What a batch waited for, in terms of what is remembered of the one before. */
  lemma BatchAfter(cfg: Config, rt: Runtime, before: seq<Event>, i: nat, first: Batch, e: Event)
    requires Remembers(cfg, rt, before, i, first) && first.endedAt > 0 && BatchOf(cfg, rt, e).Some?
    ensures var second := BatchOf(cfg, rt, e).value;
      && (first.accepted ==> SawMode(before, i, first.signature.mode))
      && (first.accepted && second.signature == first.signature ==>
            second.startedAt - first.endedAt >= cfg.commandCooldownSeconds * 1000)
      && (!first.accepted ==>
            && first.failures >= 1
            && var retryAt := first.endedAt + RetryDelay(first.failures) * 1000;
               second.startedAt >= retryAt || Reached(before, i, retryAt))
  {
    hide Step, EvaluationOf, RetryDelay, NeedsMode, NeedsTemperature, SawMode, Reached;
  }

  lemma ReachedIsPast(stored: Runtime, trace: seq<Event>, i: nat, j: nat, time: int)
    requires WellFormed(stored, trace) && j < |trace| && Reached(trace[..j], i, time)
    ensures time <= trace[j].now
  {
    var k :| i < k < j && ActsAt(trace[..j][k]) >= time;
    assert trace[..j][k] == trace[k];
    assert EndOf(trace[k]) <= trace[j].now;
  }

  /**
    Two batches with none between them.  If the first was accepted, the boiler was seen in its mode in between, and
    the same commands are not repeated within the cooldown; if it failed, its back-off has passed.
   */
  lemma NextBatchWaits(cfg: Config, stored: Runtime, trace: seq<Event>, i: nat, j: nat)
    requires WellFormed(stored, trace) && i < j < |trace|
    requires BatchAt(cfg, stored, trace, i).Some? && BatchAt(cfg, stored, trace, j).Some?
    requires forall k | i < k < j :: BatchAt(cfg, stored, trace, k).None?
    ensures var first, second := BatchAt(cfg, stored, trace, i).value, BatchAt(cfg, stored, trace, j).value;
      && (first.accepted ==> SawMode(trace[..j], i, first.signature.mode))
      && (first.accepted && second.signature == first.signature ==>
            second.startedAt - first.endedAt >= cfg.commandCooldownSeconds * 1000)
      && (!first.accepted ==>
            first.failures >= 1 && second.startedAt - first.endedAt >= RetryDelay(first.failures) * 1000)
  {
    var before := trace[..j];
    var first := BatchAt(cfg, stored, trace, i).value;
    LastBatchBefore(cfg, stored, trace, i, j);
    BatchResult(cfg, Run(cfg, stored, trace[..i]), trace[i]);
    BatchAfter(cfg, Run(cfg, stored, before), before, i, first, trace[j]);
    hide Run, Step, RetryDelay, SawMode, Remembers, BatchOf;
    if !first.accepted && Reached(before, i, first.endedAt + RetryDelay(first.failures) * 1000) {
      ReachedIsPast(stored, trace, i, j, first.endedAt + RetryDelay(first.failures) * 1000);
    }
    BatchStarts(cfg, stored, trace, j);
  }

  lemma BatchStarts(cfg: Config, stored: Runtime, trace: seq<Event>, j: nat)
    requires WellFormed(stored, trace) && j < |trace| && BatchAt(cfg, stored, trace, j).Some?
    ensures trace[j].now <= BatchAt(cfg, stored, trace, j).value.startedAt
  {
    hide Run, Step;
  }

  /** Before the next batch the runtime remembers the one before it. */
  lemma LastBatchBefore(cfg: Config, stored: Runtime, trace: seq<Event>, i: nat, j: nat)
    requires i < j < |trace| && BatchAt(cfg, stored, trace, i).Some?
    requires forall k | i < k < j :: BatchAt(cfg, stored, trace, k).None?
    ensures Remembers(cfg, Run(cfg, stored, trace[..j]), trace[..j], i, BatchAt(cfg, stored, trace, i).value)
  {
    var before := trace[..j];
    ProtocolInvariant(cfg, stored, before);
    LastBatchIsLast(cfg, stored, before);
    forall k: nat | k < j ensures BatchAt(cfg, stored, before, k) == BatchAt(cfg, stored, trace, k) {
      assert before[..k] == trace[..k];
    }
    hide BatchAt, Remembers, Run, LastBatch;
    assert BatchAt(cfg, stored, before, i).Some?;
    assert LastBatch(cfg, stored, before) == Some(i);
  }

  /** The back-off doubles from 15 seconds and stays at 240. */
  lemma RetryDelayDoubles(failures: nat)
    requires failures >= 1
    ensures RetryDelay(failures) ==
      if failures == 1 then 15
      else if failures == 2 then 30
      else if failures == 3 then 60
      else if failures == 4 then 120 else 240
  {}

  /**
    Failures in a row at the end of a run, from the adapter's answers alone: an accepted command or an idle
    evaluation starts over.
   */
  function FailuresInARow(cfg: Config, stored: Runtime, trace: seq<Event>): nat {
    if trace == [] then stored.consecutiveFailures
    else
      var before, rt, e := FailuresInARow(cfg, stored, Init(trace)), Run(cfg, stored, Init(trace)), Last(trace);
      if e.ConfigError? then before + 1
      else if BatchOf(cfg, rt, e).Some? then
        if AllAccepted(cfg, rt, e) then 0
        else if FirstAccepted(cfg, rt, e) then 1
        else before + 1
      else if IsIdle(cfg, rt, e) then 0
      else before
  }

  /** An executing evaluation that finds nothing pending, no wait, and the boiler as wanted. */
  predicate IsIdle(cfg: Config, rt: Runtime, e: Event) {
    && MayExecute(cfg, rt, e)
    && !WaitsForRetry(rt, e.appliedAt) && rt.commandPending.None?
    && var desired := EvaluationOf(cfg, rt, e).desired.value;
       && !InCooldown(cfg, rt, SignatureOf(cfg, e.boiler.value, desired), e.appliedAt)
       && Actions(cfg, e.boiler.value, desired) == []
  }

  lemma {:induction false} FailuresAreCounted(cfg: Config, stored: Runtime, trace: seq<Event>)
    ensures Run(cfg, stored, trace).consecutiveFailures == FailuresInARow(cfg, stored, trace)
  {
    if trace == [] {
    } else {
      FailuresAreCounted(cfg, stored, Init(trace));
      var rt, e := Run(cfg, stored, Init(trace)), Last(trace);
      if BatchOf(cfg, rt, e).Some? {
        BatchResult(cfg, rt, e);
      }
    }
  }

  /** Heat is sent only while a radiator calls, off only while none does, and only to a boiler that differs. */
  lemma BatchesFollowDemand(cfg: Config, stored: Runtime, trace: seq<Event>, k: nat)
    requires k < |trace| && BatchAt(cfg, stored, trace, k).Some?
    ensures var batch, e := BatchAt(cfg, stored, trace, k).value, trace[k];
      && batch.signature.mode in {Heat, Off}
      && (batch.signature.mode == Heat <==> SomeRadiatorCalls(cfg, e.radiators))
      && e.execute && e.boiler.Some?
      && (e.boiler.value.mode != batch.signature.mode || batch.signature.temperature.Some?)
      && (batch.signature.temperature.Some? ==> batch.signature == Signature(Heat, Some(cfg.requestTemperature)))
  {
    IdsCount(trace[k].radiators, cfg);
  }

  /** The event finds the demand unchanged and the boiler as the pending command wanted it. */
  predicate Confirms(cfg: Config, rt: Runtime, pending: Pending, e: Event) {
    && MayExecute(cfg, rt, e)
    && var boiler, desired := e.boiler.value, EvaluationOf(cfg, rt, e).desired.value;
       && boiler.mode == desired == pending.desiredMode
       && !NeedsTemperature(cfg, boiler, desired)
       && !TemperatureStillOff(boiler, pending.desiredTemperature)
  }

  /** An event takes a pending command as carried out exactly if it confirms it; until then it sends nothing else. */
  lemma PendingClearsExactlyWhen(cfg: Config, rt: Runtime, e: Event)
    requires PendingOk(rt) && rt.commandPending.Some?
    ensures BatchOf(cfg, rt, e).None?
    ensures var confirmed, after := Confirms(cfg, rt, rt.commandPending.value, e), Step(cfg, rt, e);
      && after.commandPending == (if confirmed then None else rt.commandPending)
      && after.verifiedAt == (if confirmed then Some(e.appliedAt) else rt.verifiedAt)
      && (confirmed ==>
           after.lastCommand == Some(rt.lastCommand.value.(observedAt := Some(e.appliedAt), result := Observed)))
      && (!confirmed ==> after.lastCommand == rt.lastCommand)
  {}

  predicate ConfirmsAt(cfg: Config, stored: Runtime, trace: seq<Event>, pending: Pending, k: nat)
    requires k < |trace|
  {
    Confirms(cfg, Run(cfg, stored, trace[..k]), pending, trace[k])
  }

  function PendingAt(cfg: Config, stored: Runtime, trace: seq<Event>, k: nat): Option<Pending>
    requires k <= |trace|
  {
    Run(cfg, stored, trace[..k]).commandPending
  }

  lemma PendingStep(cfg: Config, stored: Runtime, trace: seq<Event>, k: nat)
    requires k < |trace| && PendingAt(cfg, stored, trace, k).Some?
    ensures BatchAt(cfg, stored, trace, k).None?
    ensures var pending := PendingAt(cfg, stored, trace, k);
      PendingAt(cfg, stored, trace, k + 1) == if ConfirmsAt(cfg, stored, trace, pending.value, k) then None else pending
  {
    assert Init(trace[..k + 1]) == trace[..k];
    ProtocolInvariant(cfg, stored, trace[..k]);
    hide Step;
    PendingClearsExactlyWhen(cfg, Run(cfg, stored, trace[..k]), trace[k]);
  }

  lemma {:induction false} StaysPending(cfg: Config, stored: Runtime, trace: seq<Event>, n: nat, m: nat)
    requires n <= m <= |trace| && PendingAt(cfg, stored, trace, n).Some?
    requires var pending := PendingAt(cfg, stored, trace, n).value;
      forall k | n <= k < m :: !ConfirmsAt(cfg, stored, trace, pending, k)
    ensures PendingAt(cfg, stored, trace, m) == PendingAt(cfg, stored, trace, n)
    ensures m < |trace| ==> BatchAt(cfg, stored, trace, m).None?
  {
    hide PendingAt, ConfirmsAt, BatchAt;
    if n < m {
      StaysPending(cfg, stored, trace, n, m - 1);
      PendingStep(cfg, stored, trace, m - 1);
    }
    if m < |trace| {
      PendingStep(cfg, stored, trace, m);
    }
  }

  /**
    A pending command stays exactly while no event confirms it, and every batch after it comes after an event that
    confirmed it.
   */
  lemma PendingBlocksExactlyWhile(cfg: Config, stored: Runtime, trace: seq<Event>, n: nat)
    requires n <= |trace| && PendingAt(cfg, stored, trace, n).Some?
    ensures var pending := PendingAt(cfg, stored, trace, n).value;
      && ((forall k | n <= k <= |trace| :: PendingAt(cfg, stored, trace, k) == Some(pending)) <==>
            forall k | n <= k < |trace| :: !ConfirmsAt(cfg, stored, trace, pending, k))
      && (forall j | n <= j < |trace| && BatchAt(cfg, stored, trace, j).Some? ::
            exists k :: n <= k < j && ConfirmsAt(cfg, stored, trace, pending, k))
  {
    hide PendingAt, ConfirmsAt, BatchAt;
    var pending := PendingAt(cfg, stored, trace, n).value;
    if forall k | n <= k < |trace| :: !ConfirmsAt(cfg, stored, trace, pending, k) {
      forall k | n <= k <= |trace| ensures PendingAt(cfg, stored, trace, k) == Some(pending) {
        StaysPending(cfg, stored, trace, n, k);
      }
    }
    if forall k | n <= k <= |trace| :: PendingAt(cfg, stored, trace, k) == Some(pending) {
      forall k | n <= k < |trace| ensures !ConfirmsAt(cfg, stored, trace, pending, k) {
        PendingStep(cfg, stored, trace, k);
        assert PendingAt(cfg, stored, trace, k + 1) == Some(pending);
      }
    }
    forall j | n <= j < |trace| && BatchAt(cfg, stored, trace, j).Some?
      ensures exists k :: n <= k < j && ConfirmsAt(cfg, stored, trace, pending, k)
    {
      if forall k | n <= k < j :: !ConfirmsAt(cfg, stored, trace, pending, k) {
        StaysPending(cfg, stored, trace, n, j);
        assert false;
      }
    }
  }

  /**
    If the demand turns round while a command is pending, nothing is sent while it stays so, whatever the boiler
    shows.
   */
  lemma TurnedDemandBlocks(cfg: Config, stored: Runtime, trace: seq<Event>, n: nat)
    requires n <= |trace| && PendingAt(cfg, stored, trace, n).Some?
    requires var mode := PendingAt(cfg, stored, trace, n).value.desiredMode;
      forall k | n <= k < |trace| && trace[k].Evaluated? :: SomeRadiatorCalls(cfg, trace[k].radiators) <==> mode != Heat
    ensures PendingAt(cfg, stored, trace, |trace|) == PendingAt(cfg, stored, trace, n)
    ensures forall k | n <= k < |trace| :: BatchAt(cfg, stored, trace, k).None?
  {
    var pending := PendingAt(cfg, stored, trace, n).value;
    hide PendingAt, BatchAt;
    forall k | n <= k < |trace| ensures !ConfirmsAt(cfg, stored, trace, pending, k) {
      if trace[k].Evaluated? {
        IdsCount(trace[k].radiators, cfg);
      }
    }
    hide ConfirmsAt;
    PendingBlocksExactlyWhile(cfg, stored, trace, n);
  }

  /**
    If the boiler keeps reporting another set-point than asked for, nothing is sent again, whatever the demand does.
   */
  lemma OtherSetPointBlocks(cfg: Config, stored: Runtime, trace: seq<Event>, n: nat)
    requires n <= |trace| && PendingAt(cfg, stored, trace, n).Some?
    requires var wanted := PendingAt(cfg, stored, trace, n).value.desiredTemperature;
      forall k | n <= k < |trace| && trace[k].Evaluated? && trace[k].boiler.Some? ::
        TemperatureStillOff(trace[k].boiler.value, wanted)
    ensures PendingAt(cfg, stored, trace, |trace|) == PendingAt(cfg, stored, trace, n)
    ensures forall k | n <= k < |trace| :: BatchAt(cfg, stored, trace, k).None?
  {
    hide PendingAt, BatchAt;
    PendingBlocksExactlyWhile(cfg, stored, trace, n);
  }

  // -------------------------------------------------------------- instances

  function Radiator(calls: bool): Snapshot {
    Snapshot("radiator", true, true, Heat, Some(calls), false, Some(20.0), Some(20.0), true)
  }

  /** A boiler whose set-point is 21 degrees and cannot be written. */
  function Boiler(mode: Mode): Snapshot {
    Snapshot("boiler", true, true, mode, None, false, Some(21.0), None, false)
  }

  function Settings(requestTemperatureEnabled: bool): Config {
    Config(0.3, 300, requestTemperatureEnabled, 30.0, 60)
  }

  function At(at: int, calls: bool, mode: Mode): Event {
    Evaluated(at, at, [Radiator(calls)], Some(Boiler(mode)), true, Outcome(true, at), Outcome(true, at))
  }

  const FRESH := Runtime(None, None, None, 0, 0, None, None, None)

  lemma FirstCommandIsPending(requestTemperatureEnabled: bool)
    ensures var cfg := Settings(requestTemperatureEnabled);
      Run(cfg, FRESH, [At(1000, true, Off)]).commandPending ==
      Some(Pending(1000, Heat, if requestTemperatureEnabled then Some(30.0) else None))
  {
    var cfg, e := Settings(requestTemperatureEnabled), At(1000, true, Off);
    assert Run(cfg, FRESH, []) == FRESH;
    assert Init([e]) == [];
    assert CallingIds([Radiator(true)], cfg) == ["radiator"] + CallingIds([], cfg);
    assert Actions(cfg, Boiler(Off), Heat) == [SetMode(Heat)];
    var noted := NoteUnknown(cfg, FRESH, e);
    var after := AfterAccepted(noted, SetMode(Heat), 1000, Signature(Heat, None),
                               Pending(1000, Heat, EvaluationOf(cfg, FRESH, e).desiredTemperature));
    assert Send(after, [], Signature(Heat, None), Pending(1000, Heat, None), e.modeOutcome, e.temperatureOutcome) ==
      after;
  }

  lemma NobodyCalls(rt: Runtime, at: int, mode: Mode)
    ensures var cfg, e := Settings(false), At(at, false, mode);
      !SomeRadiatorCalls(cfg, e.radiators) && EvaluationOf(cfg, rt, e).desired == Some(Off)
  {
    IdsCount([Radiator(false)], Settings(false));
    assert RadiatorDemand(Radiator(false), Settings(false)).Satisfied?;
  }

  /**
    The boiler was told to heat and does; now nobody calls, off is wanted, and off is not sent as long as nobody
    calls.
   */
  lemma BoilerHeatsForNobody(rest: seq<Event>)
    requires forall k | 0 <= k < |rest| && rest[k].Evaluated? :: !SomeRadiatorCalls(Settings(false), rest[k].radiators)
    ensures var cfg, trace := Settings(false), [At(1000, true, Off), At(2000, false, Heat)] + rest;
      && EvaluationOf(cfg, Run(cfg, FRESH, trace[..1]), trace[1]).desired == Some(Off) &&
        trace[1].boiler.value.mode == Heat
      && forall k | 1 <= k < |trace| :: BatchAt(cfg, FRESH, trace, k).None?
  {
    var cfg, trace := Settings(false), [At(1000, true, Off), At(2000, false, Heat)] + rest;
    FirstCommandIsPending(false);
    assert trace[..1] == [At(1000, true, Off)];
    NobodyCalls(Run(cfg, FRESH, trace[..1]), 2000, Heat);
    hide Run, EvaluationOf, SomeRadiatorCalls, BatchAt, Settings;
    forall k | 1 <= k < |trace| && trace[k].Evaluated? ensures !SomeRadiatorCalls(cfg, trace[k].radiators) {
      assert k > 1 ==> trace[k] == rest[k - 2];
    }
    TurnedDemandBlocks(cfg, FRESH, trace, 1);
  }

  /** The boiler does what it was told but keeps its own set-point; it is never commanded again, not even to stop. */
  lemma OwnSetPointEndsControl(rest: seq<Event>)
    requires forall k | 0 <= k < |rest| && rest[k].Evaluated? && rest[k].boiler.Some? ::
      rest[k].boiler.value.target == Some(21.0)
    ensures var cfg, trace := Settings(true), [At(1000, true, Off), At(2000, true, Heat)] + rest;
      && PendingAt(cfg, FRESH, trace, 1).Some? && trace[1].boiler.value.mode == Heat
      && forall k | 1 <= k < |trace| :: BatchAt(cfg, FRESH, trace, k).None?
  {
    var cfg, trace := Settings(true), [At(1000, true, Off), At(2000, true, Heat)] + rest;
    FirstCommandIsPending(true);
    assert trace[..1] == [At(1000, true, Off)];
    OtherSetPointBlocks(cfg, FRESH, trace, 1);
  }
}
