/**
  From incidents to reports: what the activity service records about incidents is queued in the outbox, where it
  waits for the platform's acknowledgement.
 */
module Reporting {
  import opened Prelude
  import opened OccurrenceIds
  import I = Incidents
  import O = Outbox

  /** `told` is the revision of the report uploaded last about each incident, by the text of its identifier. */
  datatype State = State(incidents: I.State, outbox: O.Outbox, told: map<string, nat>)

  /** `Uploaded` is an upload that arrives, whether or not it is answered; the answer comes later, as `Acknowledged`. */
  datatype Event =
    | Observed(event: I.Event)
    | Uploaded
    | Acknowledged(ids: set<string>, now: int)
    | UploadFailed(message: string)

  function IdText(id: I.IncidentId): string {
    match id
    case DeviceOffline(d) => "device_offline:" + d
    case IntegrationOffline(n) => "integration_offline:" + n
    case BatteryLevel(d) => "battery_level:" + d
    case BatteryCritical(d) => "battery_critical:" + d
  }

  function EnvelopeOf(e: I.Emission): O.Envelope {
    var revision := if e.revision < 1 then 1 else e.revision;
    O.Envelope(IdText(e.incidentId) + [':'] + Text(revision), IdText(e.incidentId), revision, e.firstObservedAt)
  }

  function QueueAll(o: O.Outbox, emissions: seq<I.Emission>): O.Outbox {
    if emissions == [] then o
    else O.Queue(QueueAll(o, Init(emissions)), EnvelopeOf(Last(emissions)), "", Last(emissions).at)
  }

  /** An upload sends everything that waits, in order. */
  function TellAll(told: map<string, nat>, pending: seq<O.Entry>): map<string, nat> {
    if pending == [] then told
    else TellAll(told, Init(pending))[Last(pending).envelope.incidentId := Last(pending).envelope.revision]
  }

  /** What an event records. */
  function Recorded(cfg: I.Config, s: State, event: I.Event): seq<I.Emission> {
    var log := I.Step(cfg, s.incidents, event).log;
    if |s.incidents.log| <= |log| then log[|s.incidents.log|..] else []
  }

  function Step(cfg: I.Config, s: State, event: Event): State {
    match event
    case Observed(e) =>
      s.(incidents := I.Step(cfg, s.incidents, e), outbox := QueueAll(s.outbox, Recorded(cfg, s, e)))
    case Uploaded => s.(told := TellAll(s.told, s.outbox.pending))
    case Acknowledged(ids, now) => s.(outbox := O.Acknowledge(s.outbox, ids, now))
    case UploadFailed(message) => s.(outbox := O.UploadFailed(s.outbox, message))
  }

  /** The state after a run that starts with no incidents and nothing to report. */
  function Run(cfg: I.Config, startedAt: int, trace: seq<Event>): State {
    if trace == [] then State(I.State(map[], startedAt, []), O.EMPTY, map[])
    else Step(cfg, Run(cfg, startedAt, Init(trace)), Last(trace))
  }

  function Observations(trace: seq<Event>): seq<I.Event> {
    if trace == [] then []
    else Observations(Init(trace)) + if Last(trace).Observed? then [Last(trace).event] else []
  }

  lemma ObservationsSnoc(trace: seq<Event>)
    requires trace != []
    ensures Observations(trace) == Observations(Init(trace)) + if Last(trace).Observed? then [Last(trace).event] else []
    ensures Last(trace).Observed? ==>
      Observations(trace) != [] && Init(Observations(trace)) == Observations(Init(trace)) &&
        Last(Observations(trace)) == Last(trace).event
    ensures !Last(trace).Observed? ==> Observations(trace) == Observations(Init(trace))
  {}

  /** The incidents do not depend on what happens to the reports. */
  lemma {:induction false} IncidentsRun(cfg: I.Config, startedAt: int, trace: seq<Event>)
    ensures Run(cfg, startedAt, trace).incidents == I.Run(cfg, startedAt, Observations(trace))
  {
    if trace == [] {
    } else {
      IncidentsRun(cfg, startedAt, Init(trace));
      ObservationsSnoc(trace);
      hide Observations, I.Step;
    }
  }

  // ------------------------------------------------------------ identifiers

  lemma IdTextIsInjective(a: I.IncidentId, b: I.IncidentId)
    ensures IdText(a) == IdText(b) <==> a == b
  {
    if IdText(a) == IdText(b) {
      assert IdText(a)[0] == IdText(b)[0] && IdText(a)[8] == IdText(b)[8];
      var n := match a
               case DeviceOffline(_) => 15
               case IntegrationOffline(_) => 20
               case BatteryLevel(_) => 14
               case BatteryCritical(_) => 17;
      assert IdText(a)[n..] == IdText(b)[n..];
    }
  }

  /** Two envelopes have one identifier exactly if they have one incident and revision. */
  lemma EnvelopesAreIdentified(a: I.Emission, b: I.Emission)
    ensures EnvelopeOf(a).id == EnvelopeOf(b).id <==>
      a.incidentId == b.incidentId && EnvelopeOf(a).revision == EnvelopeOf(b).revision
  {
    var r, q := EnvelopeOf(a).revision, EnvelopeOf(b).revision;
    IdTextIsInjective(a.incidentId, b.incidentId);
    TextStandsForNumber(r, 0);
    TextStandsForNumber(q, 0);
    if EnvelopeOf(a).id == EnvelopeOf(b).id {
      LastSeparator(IdText(a.incidentId), Text(r), IdText(b.incidentId), Text(q), ':');
    }
  }

  // --------------------------------------------------------------- invariant

  /** Every report that waits was made from a recorded incident. */
  ghost predicate Built(pending: seq<O.Entry>, log: seq<I.Emission>) {
    forall i | 0 <= i < |pending| :: IsReportOf(pending[i], log)
  }

  predicate IsReportOf(entry: O.Entry, log: seq<I.Emission>) {
    exists k :: 0 <= k < |log| && entry.envelope == EnvelopeOf(log[k])
  }

  /** A report with the incident and revision of an emission waits. */
  predicate Waits(pending: seq<O.Entry>, e: I.Emission) {
    exists i :: 0 <= i < |pending| && pending[i].envelope.incidentId == IdText(e.incidentId) &&
      pending[i].envelope.revision == EnvelopeOf(e).revision
  }

  /** An envelope is dropped on queueing exactly if a report of the same incident and revision waits. */
  lemma QueuedExactlyWhen(pending: seq<O.Entry>, log: seq<I.Emission>, e: I.Emission)
    requires Built(pending, log)
    ensures O.AlreadyPending(pending, EnvelopeOf(e)) <==> Waits(pending, e)
  {
    forall i | 0 <= i < |pending|
      ensures O.Carries(pending[i], EnvelopeOf(e)) <==>
        pending[i].envelope.incidentId == IdText(e.incidentId) && pending[i].envelope.revision == EnvelopeOf(e).revision
    {
      assert IsReportOf(pending[i], log);
      var k :| 0 <= k < |log| && pending[i].envelope == EnvelopeOf(log[k]);
      EnvelopesAreIdentified(log[k], e);
      IdTextIsInjective(log[k].incidentId, e.incidentId);
    }
  }

  ghost predicate Sound(o: O.Outbox, log: seq<I.Emission>) {
    O.Valid(o) && O.DistinctPairs(o.pending) && Built(o.pending, log)
  }

  lemma QueueIsSound(o: O.Outbox, log: seq<I.Emission>, e: I.Emission)
    requires Sound(o, log) && e in log
    ensures Sound(O.Queue(o, EnvelopeOf(e), "", e.at), log)
  {
    var o' := O.Queue(o, EnvelopeOf(e), "", e.at);
    O.QueueKeepsValid(o, EnvelopeOf(e), "", e.at);
    if !O.AlreadyPending(o.pending, EnvelopeOf(e)) {
      var dropped := O.QueuedList(o, EnvelopeOf(e), "", e.at);
      forall i | 0 <= i < |o'.pending| ensures IsReportOf(o'.pending[i], log) {
        if i < |o'.pending| - 1 {
          assert o'.pending[i] == o.pending[dropped + i];
        }
      }
    }
  }

  lemma {:induction false} QueueAllIsSound(o: O.Outbox, log: seq<I.Emission>, emissions: seq<I.Emission>)
    requires Sound(o, log) && forall e | e in emissions :: e in log
    ensures Sound(QueueAll(o, emissions), log)
  {
    if emissions == [] {
    } else {
      QueueAllIsSound(o, log, Init(emissions));
      QueueIsSound(QueueAll(o, Init(emissions)), log, Last(emissions));
    }
  }

  lemma LongerLog(o: O.Outbox, log: seq<I.Emission>, log': seq<I.Emission>)
    requires Sound(o, log) && log <= log'
    ensures Sound(o, log')
  {}

  lemma AcknowledgeIsSound(o: O.Outbox, log: seq<I.Emission>, ids: set<string>, now: int)
    requires Sound(o, log)
    ensures Sound(O.Acknowledge(o, ids, now), log)
  {
    var o' := O.Acknowledge(o, ids, now);
    O.AcknowledgeKeepsValid(o, ids, now);
    O.AcknowledgeIsExact(o, ids, now);
    forall i | 0 <= i < |o'.pending| ensures IsReportOf(o'.pending[i], log) {
      assert o'.pending[i] in o.pending;
    }
  }

  lemma FailureIsSound(o: O.Outbox, log: seq<I.Emission>, message: string)
    requires Sound(o, log)
    ensures Sound(O.UploadFailed(o, message), log)
  {}

  lemma StepIsSound(cfg: I.Config, s: State, event: Event)
    requires Sound(s.outbox, s.incidents.log)
    requires s.incidents.log <= Step(cfg, s, event).incidents.log
    ensures Sound(Step(cfg, s, event).outbox, Step(cfg, s, event).incidents.log)
  {
    hide Sound, I.Step, QueueAll;
    var log, log' := s.incidents.log, Step(cfg, s, event).incidents.log;
    match event
    case Observed(_) =>
      LongerLog(s.outbox, log, log');
      QueueAllIsSound(s.outbox, log', log'[|log|..]);
    case Uploaded =>
    case Acknowledged(ids, now) => AcknowledgeIsSound(s.outbox, log, ids, now);
    case UploadFailed(message) => FailureIsSound(s.outbox, log, message);
  }

  lemma LogNeverShrinks(cfg: I.Config, startedAt: int, trace: seq<Event>)
    requires I.WellFormed(startedAt, Observations(trace)) && trace != []
    ensures I.WellFormed(startedAt, Observations(Init(trace)))
    ensures Run(cfg, startedAt, Init(trace)).incidents.log <= Run(cfg, startedAt, trace).incidents.log
  {
    IncidentsRun(cfg, startedAt, trace);
    IncidentsRun(cfg, startedAt, Init(trace));
    ObservationsSnoc(trace);
    hide I.Run, Run, I.WellFormed, Observations;
    if Last(trace).Observed? {
      I.PrefixIsWellFormed(startedAt, Observations(trace));
      I.RunInvariant(cfg, startedAt, Observations(trace));
    }
  }

  lemma {:induction false} RunIsSound(cfg: I.Config, startedAt: int, trace: seq<Event>)
    requires I.WellFormed(startedAt, Observations(trace))
    ensures var s := Run(cfg, startedAt, trace); Sound(s.outbox, s.incidents.log)
  {
    hide I.WellFormed, Observations;
    if trace == [] {
    } else {
      LogNeverShrinks(cfg, startedAt, trace);
      RunIsSound(cfg, startedAt, Init(trace));
      hide Sound, Step;
      StepIsSound(cfg, Run(cfg, startedAt, Init(trace)), Last(trace));
    }
  }

  // ----------------------------------------------------------- main theorems

  lemma {:induction false} LogOfHas(log: seq<I.Emission>, k: nat)
    requires k < |log|
    ensures log[k] in I.LogOf(log, log[k].incidentId)
  {
    if k < |log| - 1 {
      LogOfHas(Init(log), k);
    }
  }

  /** In every run the outbox is sound, and no three reports of one incident wait: the revisions are 1 and 2. */
  lemma AtMostTwoReportsWait(cfg: I.Config, startedAt: int, trace: seq<Event>, i: nat, j: nat, k: nat)
    requires I.WellFormed(startedAt, Observations(trace))
    requires i < j < k < |Run(cfg, startedAt, trace).outbox.pending|
    ensures var pending := Run(cfg, startedAt, trace).outbox.pending;
      && O.DistinctPairs(pending)
      && pending[i].envelope.revision in {1, 2}
      && !(pending[i].envelope.incidentId == pending[j].envelope.incidentId == pending[k].envelope.incidentId)
  {
    RunIsSound(cfg, startedAt, trace);
    IncidentsRun(cfg, startedAt, trace);
    var s := Run(cfg, startedAt, trace);
    hide Run, I.Run, Observations;
    forall n | 0 <= n < |s.outbox.pending| ensures s.outbox.pending[n].envelope.revision in {1, 2} {
      assert IsReportOf(s.outbox.pending[n], s.incidents.log);
      var m :| 0 <= m < |s.incidents.log| && s.outbox.pending[n].envelope == EnvelopeOf(s.incidents.log[m]);
      LogOfHas(s.incidents.log, m);
      I.EmissionsAlternate(cfg, startedAt, Observations(trace), s.incidents.log[m].incidentId);
    }
  }

  /** In every run, a new report of an incident is queued exactly if none of the same revision waits. */
  lemma ReportIsQueuedExactlyWhen(cfg: I.Config, startedAt: int, trace: seq<Event>, e: I.Emission)
    requires I.WellFormed(startedAt, Observations(trace))
    ensures var o := Run(cfg, startedAt, trace).outbox;
      O.Queue(o, EnvelopeOf(e), "", e.at) == o <==> Waits(o.pending, e)
  {
    RunIsSound(cfg, startedAt, trace);
    var s := Run(cfg, startedAt, trace);
    hide Run, Observations;
    QueuedExactlyWhen(s.outbox.pending, s.incidents.log, e);
    if !Waits(s.outbox.pending, e) {
      var dropped := O.QueuedList(s.outbox, EnvelopeOf(e), "", e.at);
      var pending := O.Queue(s.outbox, EnvelopeOf(e), "", e.at).pending;
      assert Last(pending).envelope == EnvelopeOf(e);
    }
  }

  /** The reports of one incident that wait, in order. */
  function WaitingFor(pending: seq<O.Entry>, id: I.IncidentId): seq<O.Envelope> {
    if pending == [] then []
    else
      WaitingFor(Init(pending), id)
      + if Last(pending).envelope.incidentId == IdText(id) then [Last(pending).envelope] else []
  }

  function Revisions(envelopes: seq<O.Envelope>): set<nat> {
    set v | v in envelopes :: v.revision
  }

  lemma {:induction false} WaitingForHas(pending: seq<O.Entry>, id: I.IncidentId, v: O.Envelope)
    ensures v in WaitingFor(pending, id) <==>
      exists i :: 0 <= i < |pending| && pending[i].envelope == v && v.incidentId == IdText(id)
  {
    hide IdText;
    if pending == [] {
    } else {
      WaitingForHas(Init(pending), id, v);
      assert forall i | 0 <= i < |pending| - 1 :: Init(pending)[i] == pending[i];
    }
  }

  /** What waits for an incident after one more envelope is queued. */
  lemma QueueWaiting(o: O.Outbox, log: seq<I.Emission>, e: I.Emission, id: I.IncidentId)
    requires Sound(o, log) && e in log && |O.Queue(o, EnvelopeOf(e), "", e.at).pending| < O.CAPACITY
    ensures WaitingFor(O.Queue(o, EnvelopeOf(e), "", e.at).pending, id) == Merged(WaitingFor(o.pending, id), e, id)
  {
    QueuedExactlyWhen(o.pending, log, e);
    WaitsByRevision(o.pending, e);
    IdTextIsInjective(e.incidentId, id);
    hide Waits, O.Carries, EnvelopeOf;
    if !O.AlreadyPending(o.pending, EnvelopeOf(e)) {
      var dropped := O.QueuedList(o, EnvelopeOf(e), "", e.at);
      var pending := O.Queue(o, EnvelopeOf(e), "", e.at).pending;
      EnvelopeNames(e);
      assert o.pending[0..] == o.pending;
      assert Init(pending) == o.pending;
    }
  }

  lemma EnvelopeNames(e: I.Emission)
    ensures EnvelopeOf(e).incidentId == IdText(e.incidentId)
  {}

  /** The reports of an incident with one more of its emissions, unless one of the same revision is there. */
  function Merged(waiting: seq<O.Envelope>, e: I.Emission, id: I.IncidentId): seq<O.Envelope> {
    if e.incidentId != id || EnvelopeOf(e).revision in Revisions(waiting) then waiting else waiting + [EnvelopeOf(e)]
  }

  lemma WaitsByRevision(pending: seq<O.Entry>, e: I.Emission)
    ensures Waits(pending, e) <==> EnvelopeOf(e).revision in Revisions(WaitingFor(pending, e.incidentId))
  {
    if Waits(pending, e) {
      var i :| 0 <= i < |pending| && pending[i].envelope.incidentId == IdText(e.incidentId) &&
        pending[i].envelope.revision == EnvelopeOf(e).revision;
      WaitingForHas(pending, e.incidentId, pending[i].envelope);
    }
    if EnvelopeOf(e).revision in Revisions(WaitingFor(pending, e.incidentId)) {
      var v :| v in WaitingFor(pending, e.incidentId) && v.revision == EnvelopeOf(e).revision;
      WaitingForHas(pending, e.incidentId, v);
    }
  }

  lemma QueueGrows(o: O.Outbox, e: I.Emission)
    requires O.Valid(o)
    ensures |o.pending| <= |O.Queue(o, EnvelopeOf(e), "", e.at).pending|
  {}

  lemma {:induction false} QueueAllMerges(o: O.Outbox, log: seq<I.Emission>, emissions: seq<I.Emission>,
                                          id: I.IncidentId)
    requires Sound(o, log) && (forall e | e in emissions :: e in log) && |QueueAll(o, emissions).pending| < O.CAPACITY
    requires forall e | e in emissions && e.incidentId == id ::
      EnvelopeOf(e).revision in Revisions(WaitingFor(o.pending, id))
    ensures WaitingFor(QueueAll(o, emissions).pending, id) == WaitingFor(o.pending, id)
    ensures |o.pending| <= |QueueAll(o, emissions).pending|
  {
    hide Revisions, WaitingFor, O.Queue, Sound;
    if emissions == [] {
    } else {
      var before := QueueAll(o, Init(emissions));
      QueueAllIsSound(o, log, Init(emissions));
      assert O.Valid(before) by { SoundIsValid(before, log); }
      QueueGrows(before, Last(emissions));
      QueueAllMerges(o, log, Init(emissions), id);
      QueueWaiting(before, log, Last(emissions), id);
    }
  }

  lemma SoundIsValid(o: O.Outbox, log: seq<I.Emission>)
    requires Sound(o, log)
    ensures O.Valid(o)
  {}

  lemma {:induction false} FailureKeepsWaiting(pending: seq<O.Entry>, id: I.IncidentId)
    ensures WaitingFor(O.RetriedAll(pending), id) == WaitingFor(pending, id)
  {
    if pending == [] {
    } else {
      FailureKeepsWaiting(Init(pending), id);
      assert Init(O.RetriedAll(pending)) == O.RetriedAll(Init(pending));
    }
  }

  /** Whatever is recorded in a run has revision 1 or 2. */
  lemma RevisionsAreOneOrTwo(cfg: I.Config, startedAt: int, trace: seq<Event>, e: I.Emission)
    requires I.WellFormed(startedAt, Observations(trace)) && e in Run(cfg, startedAt, trace).incidents.log
    ensures EnvelopeOf(e).revision in {1, 2}
  {
    IncidentsRun(cfg, startedAt, trace);
    var log := Run(cfg, startedAt, trace).incidents.log;
    hide Run, I.Run, Observations, I.WellFormed;
    var m :| 0 <= m < |log| && log[m] == e;
    LogOfHas(log, m);
    I.EmissionsAlternate(cfg, startedAt, Observations(trace), e.incidentId);
  }

  /**
    Revision numbers start again with every outage.  So once the opening and the resolution of an outage wait, nothing
    more is reported about the incident until one of them is acknowledged, however often it opens again.
   */
  lemma {:induction false} LaterOutagesAreMerged(cfg: I.Config, startedAt: int, trace: seq<Event>, n: nat,
                                                 id: I.IncidentId)
    requires I.WellFormed(startedAt, Observations(trace)) && n <= |trace|
    requires {1, 2} <= Revisions(WaitingFor(Run(cfg, startedAt, trace[..n]).outbox.pending, id))
    requires forall k | n <= k < |trace| :: !trace[k].Acknowledged?
    requires |Run(cfg, startedAt, trace).outbox.pending| < O.CAPACITY
    ensures WaitingFor(Run(cfg, startedAt, trace).outbox.pending, id) ==
      WaitingFor(Run(cfg, startedAt, trace[..n]).outbox.pending, id)
  {
    if n == |trace| {
      assert trace[..n] == trace;
    } else {
      var before, event := Run(cfg, startedAt, Init(trace)), Last(trace);
      assert Init(trace)[..n] == trace[..n];
      LogNeverShrinks(cfg, startedAt, trace);
      RunIsSound(cfg, startedAt, Init(trace));
      RunIsSound(cfg, startedAt, trace);
      var log, log' := before.incidents.log, Run(cfg, startedAt, trace).incidents.log;
      forall e | e in log' ensures EnvelopeOf(e).revision in {1, 2} {
        RevisionsAreOneOrTwo(cfg, startedAt, trace, e);
      }
      StepMerges(cfg, before, event, id, WaitingFor(Run(cfg, startedAt, trace[..n]).outbox.pending, id));
      LaterOutagesAreMerged(cfg, startedAt, Init(trace), n, id);
    }
  }

  /**
    An event without acknowledgement does not shorten the list, nor add to what waits for an incident with both
    reports.
   */
  lemma StepMerges(cfg: I.Config, s: State, event: Event, id: I.IncidentId, waiting: seq<O.Envelope>)
    requires Sound(s.outbox, s.incidents.log) && !event.Acknowledged?
    requires s.incidents.log <= Step(cfg, s, event).incidents.log
    requires forall e | e in Step(cfg, s, event).incidents.log :: EnvelopeOf(e).revision in {1, 2}
    requires {1, 2} <= Revisions(waiting) && |Step(cfg, s, event).outbox.pending| < O.CAPACITY
    ensures |s.outbox.pending| <= |Step(cfg, s, event).outbox.pending|
    ensures WaitingFor(s.outbox.pending, id) == waiting ==>
      WaitingFor(Step(cfg, s, event).outbox.pending, id) == waiting
  {
    var log, log' := s.incidents.log, Step(cfg, s, event).incidents.log;
    match event
    case Observed(_) =>
      hide Sound, I.Step, QueueAll, WaitingFor;
      LongerLog(s.outbox, log, log');
      QueueAllGrows(s.outbox, log', log'[|log|..]);
      if WaitingFor(s.outbox.pending, id) == waiting {
        QueueAllMerges(s.outbox, log', log'[|log|..], id);
      }
    case Uploaded =>
    case UploadFailed(message) => FailureKeepsWaiting(s.outbox.pending, id);
  }

  lemma {:induction false} QueueAllGrows(o: O.Outbox, log: seq<I.Emission>, emissions: seq<I.Emission>)
    requires Sound(o, log) && forall e | e in emissions :: e in log
    ensures |o.pending| <= |QueueAll(o, emissions).pending|
  {
    hide O.Queue, Sound;
    if emissions == [] {
    } else {
      QueueAllIsSound(o, log, Init(emissions));
      SoundIsValid(QueueAll(o, Init(emissions)), log);
      QueueAllGrows(o, log, Init(emissions));
      QueueGrows(QueueAll(o, Init(emissions)), Last(emissions));
    }
  }

  // -------------------------------------------------- what is told last

  /** The revision of the report uploaded last about an incident. */
  function ToldOf(told: map<string, nat>, id: I.IncidentId): Option<nat> {
    if IdText(id) in told then Some(told[IdText(id)]) else None
  }

  /** The revision of what was recorded last about an incident. */
  function RecordedLast(recorded: seq<I.Emission>): Option<nat> {
    if recorded == [] then None else Some(EnvelopeOf(Last(recorded)).revision)
  }

  /** The last report that waits about an incident, or the one uploaded last if none waits. */
  function LastWord(waiting: seq<O.Envelope>, told: Option<nat>): Option<nat> {
    if waiting == [] then told else Some(Last(waiting).revision)
  }

  /**
    What the platform has been told last about an incident, or will be by the next upload, is what was recorded
    last.
   */
  predicate Current(s: State, id: I.IncidentId) {
    LastWord(WaitingFor(s.outbox.pending, id), ToldOf(s.told, id)) == RecordedLast(I.LogOf(s.incidents.log, id))
  }

  lemma {:induction false} TellAllTells(told: map<string, nat>, pending: seq<O.Entry>, id: I.IncidentId)
    ensures ToldOf(TellAll(told, pending), id) == LastWord(WaitingFor(pending, id), ToldOf(told, id))
  {
    hide IdText;
    if pending == [] {
    } else {
      TellAllTells(told, Init(pending), id);
    }
  }

  /** An incident is up to date exactly if an upload at this moment leaves the platform with what was recorded last. */
  lemma CurrentExactlyWhen(cfg: I.Config, s: State, id: I.IncidentId)
    ensures Current(s, id) <==>
      ToldOf(Step(cfg, s, Uploaded).told, id) == RecordedLast(I.LogOf(s.incidents.log, id))
  {
    TellAllTells(s.told, s.outbox.pending, id);
  }

  /** The reports of an incident that a list of emissions adds to the queue. */
  function Added(o: O.Outbox, emissions: seq<I.Emission>, id: I.IncidentId): seq<O.Envelope> {
    if emissions == [] then []
    else
      var e, before := Last(emissions), QueueAll(o, Init(emissions));
      Added(o, Init(emissions), id)
      + if e.incidentId == id && !O.AlreadyPending(before.pending, EnvelopeOf(e)) then [EnvelopeOf(e)] else []
  }

  /** The entries that a list of emissions pushes out of the queue. */
  function PushedOut(o: O.Outbox, emissions: seq<I.Emission>): seq<O.Entry> {
    if emissions == [] then []
    else
      var e, before := Last(emissions), QueueAll(o, Init(emissions));
      PushedOut(o, Init(emissions))
      + if O.AlreadyPending(before.pending, EnvelopeOf(e)) || |before.pending| < O.CAPACITY then []
        else before.pending[..|before.pending| - O.CAPACITY + 1]
  }

  /** An acknowledgement names a report by itself or by its incident. */
  predicate IsNamed(envelope: O.Envelope, ids: set<string>) {
    envelope.id in ids - {""} || envelope.incidentId in ids - {""}
  }

  /**
    Some report of an incident is not pushed out, and the last one that waited or is added says what is recorded, if
    anything is; or all are pushed out, and what was uploaded last says so.
   */
  predicate SaysLast(waiting: seq<O.Envelope>, added: seq<O.Envelope>, pushed: seq<O.Envelope>, told: Option<nat>,
                     about: seq<I.Emission>)
  {
    var words := waiting + added;
    if |pushed| < |words| then about == [] || Last(words).revision == EnvelopeOf(about[0]).revision
    else told == if about == [] then LastWord(waiting, told) else Some(EnvelopeOf(about[0]).revision)
  }

  /**
    The event keeps an incident up to date: after what an observation records, the last report says so; an
    acknowledgement does not name the last report that waits, or it names all that wait, and what was uploaded last
    says the same as the last of them.
   */
  predicate KeepsCurrent(cfg: I.Config, s: State, event: Event, id: I.IncidentId) {
    var waiting, told := WaitingFor(s.outbox.pending, id), ToldOf(s.told, id);
    match event
    case Observed(observation) =>
      var emissions := Recorded(cfg, s, observation);
      SaysLast(waiting, Added(s.outbox, emissions, id), WaitingFor(PushedOut(s.outbox, emissions), id), told,
               I.LogOf(emissions, id))
    case Uploaded => true
    case Acknowledged(ids, _) =>
      || waiting == []
      || !IsNamed(Last(waiting), ids)
      || (told == Some(Last(waiting).revision) && forall v | v in waiting :: IsNamed(v, ids))
    case UploadFailed(_) => true
  }

  lemma {:induction false} LogOfConcat(a: seq<I.Emission>, b: seq<I.Emission>, id: I.IncidentId)
    ensures I.LogOf(a + b, id) == I.LogOf(a, id) + I.LogOf(b, id)
  {
    if b == [] {
      assert a + b == a;
    } else {
      assert Init(a + b) == a + Init(b);
      LogOfConcat(a, Init(b), id);
    }
  }

  lemma {:induction false} WaitingForConcat(a: seq<O.Entry>, b: seq<O.Entry>, id: I.IncidentId)
    ensures WaitingFor(a + b, id) == WaitingFor(a, id) + WaitingFor(b, id)
  {
    hide IdText;
    if b == [] {
      assert a + b == a;
    } else {
      assert Init(a + b) == a + Init(b);
      WaitingForConcat(a, Init(b), id);
    }
  }

  lemma WaitingForSnoc(pending: seq<O.Entry>, entry: O.Entry, id: I.IncidentId)
    ensures WaitingFor(pending + [entry], id) ==
      WaitingFor(pending, id) + if entry.envelope.incidentId == IdText(id) then [entry.envelope] else []
  {
    hide IdText;
    assert Init(pending + [entry]) == pending;
  }

  /** The entry that queueing a report adds, if it adds one. */
  function NewEntries(o: O.Outbox, e: I.Emission): seq<O.Entry> {
    if O.AlreadyPending(o.pending, EnvelopeOf(e)) then [] else [O.NewEntry(EnvelopeOf(e), "", e.at)]
  }

  lemma OneAdded(o: O.Outbox, e: I.Emission, id: I.IncidentId)
    ensures WaitingFor(o.pending + NewEntries(o, e), id) == WaitingFor(o.pending, id) + Added(o, [e], id)
  {
    hide O.AlreadyPending, IdText, Text;
    assert Init([e]) == [] && QueueAll(o, []) == o && Added(o, [], id) == [];
    IdTextIsInjective(e.incidentId, id);
    if O.AlreadyPending(o.pending, EnvelopeOf(e)) {
      assert o.pending + [] == o.pending;
    } else {
      WaitingForSnoc(o.pending, NewEntries(o, e)[0], id);
    }
  }

  /** Queueing one report: what is pushed out comes first. */
  lemma QueueSplits(o: O.Outbox, e: I.Emission)
    requires O.Valid(o)
    ensures o.pending + NewEntries(o, e) == PushedOut(o, [e]) + O.Queue(o, EnvelopeOf(e), "", e.at).pending
  {
    hide O.AlreadyPending, O.Carries, EnvelopeOf, O.NewEntry;
    assert Init([e]) == [] && QueueAll(o, []) == o && PushedOut(o, []) == [];
    if !O.AlreadyPending(o.pending, EnvelopeOf(e)) {
      var dropped := O.QueuedList(o, EnvelopeOf(e), "", e.at);
      assert o.pending == o.pending[..dropped] + o.pending[dropped..];
    }
  }

  lemma QueueShares(o: O.Outbox, e: I.Emission, id: I.IncidentId)
    requires O.Valid(o)
    ensures WaitingFor(o.pending, id) + Added(o, [e], id) ==
      WaitingFor(PushedOut(o, [e]), id) + WaitingFor(O.Queue(o, EnvelopeOf(e), "", e.at).pending, id)
  {
    hide WaitingFor, Added, PushedOut, O.Queue, NewEntries;
    OneAdded(o, e, id);
    QueueSplits(o, e);
    WaitingForConcat(PushedOut(o, [e]), O.Queue(o, EnvelopeOf(e), "", e.at).pending, id);
  }

  lemma SharedAgain<T>(first: seq<T>, added: seq<T>, out: seq<T>, middle: seq<T>, more: seq<T>, over: seq<T>,
                       left: seq<T>)
    requires first + added == out + middle && middle + more == over + left
    ensures first + (added + more) == (out + over) + left
  {
    assert first + (added + more) == (first + added) + more == out + (middle + more) == (out + over) + left;
  }

  lemma OneMore(o: O.Outbox, emissions: seq<I.Emission>, id: I.IncidentId)
    requires emissions != []
    ensures var before, e := QueueAll(o, Init(emissions)), Last(emissions);
      && Added(o, emissions, id) == Added(o, Init(emissions), id) + Added(before, [e], id)
      && PushedOut(o, emissions) == PushedOut(o, Init(emissions)) + PushedOut(before, [e])
  {
    hide O.AlreadyPending, EnvelopeOf, O.Queue;
    var before, e := QueueAll(o, Init(emissions)), Last(emissions);
    assert Init([e]) == [] && QueueAll(before, []) == before;
    assert Added(before, [], id) == [] && PushedOut(before, []) == [];
  }

  /** What waited for an incident and what is added to it is shared out between what is pushed out and what waits. */
  lemma {:induction false} QueueAllShares(o: O.Outbox, log: seq<I.Emission>, emissions: seq<I.Emission>,
                                          id: I.IncidentId)
    requires Sound(o, log) && forall e | e in emissions :: e in log
    ensures WaitingFor(o.pending, id) + Added(o, emissions, id) ==
      WaitingFor(PushedOut(o, emissions), id) + WaitingFor(QueueAll(o, emissions).pending, id)
  {
    hide Sound, O.Queue, WaitingFor, Added, PushedOut;
    if emissions == [] {
      NothingShared(o, id);
    } else {
      var before, e := QueueAll(o, Init(emissions)), Last(emissions);
      QueueAllIsSound(o, log, Init(emissions));
      SoundIsValid(before, log);
      QueueAllShares(o, log, Init(emissions), id);
      QueueShares(before, e, id);
      OneMore(o, emissions, id);
      WaitingForConcat(PushedOut(o, Init(emissions)), PushedOut(before, [e]), id);
      SharedAgain(WaitingFor(o.pending, id), Added(o, Init(emissions), id),
                  WaitingFor(PushedOut(o, Init(emissions)), id), WaitingFor(before.pending, id), Added(before, [e], id),
                  WaitingFor(PushedOut(before, [e]), id), WaitingFor(QueueAll(o, emissions).pending, id));
    }
  }

  lemma NothingShared(o: O.Outbox, id: I.IncidentId)
    ensures Added(o, [], id) == [] && PushedOut(o, []) == [] && WaitingFor([], id) == [] && QueueAll(o, []) == o
  {}

  lemma {:induction false} OnlyAboutAreAdded(o: O.Outbox, emissions: seq<I.Emission>, id: I.IncidentId)
    requires I.LogOf(emissions, id) == []
    ensures Added(o, emissions, id) == []
  {
    if emissions == [] {
    } else {
      OnlyAboutAreAdded(o, Init(emissions), id);
    }
  }

  lemma ObservedCurrent(cfg: I.Config, s: State, event: I.Event, id: I.IncidentId)
    requires Sound(s.outbox, s.incidents.log) && s.incidents.log <= I.Step(cfg, s.incidents, event).log
    requires |I.LogOf(I.Step(cfg, s.incidents, event).log, id)| <= |I.LogOf(s.incidents.log, id)| + 1
    requires Current(s, id)
    ensures Current(Step(cfg, s, Observed(event)), id) <==> KeepsCurrent(cfg, s, Observed(event), id)
  {
    hide *;
    var log, recorded := s.incidents.log, Recorded(cfg, s, event);
    RecordedIsNew(cfg, s, event);
    LongerLog(s.outbox, log, log + recorded);
    LogOfConcat(log, recorded, id);
    ObservedState(cfg, s, event, id);
    QueueAllShares(s.outbox, log + recorded, recorded, id);
    if I.LogOf(recorded, id) == [] {
      OnlyAboutAreAdded(s.outbox, recorded, id);
    }
    SharedAgrees(WaitingFor(s.outbox.pending, id), Added(s.outbox, recorded, id),
                 WaitingFor(PushedOut(s.outbox, recorded), id), WaitingFor(QueueAll(s.outbox, recorded).pending, id),
                 ToldOf(s.told, id), I.LogOf(log, id), I.LogOf(recorded, id));
  }

  lemma RecordedIsNew(cfg: I.Config, s: State, event: I.Event)
    requires s.incidents.log <= I.Step(cfg, s.incidents, event).log
    ensures s.incidents.log + Recorded(cfg, s, event) == I.Step(cfg, s.incidents, event).log
  {
    hide I.Step;
  }

  lemma ObservedState(cfg: I.Config, s: State, event: I.Event, id: I.IncidentId)
    requires s.incidents.log <= I.Step(cfg, s.incidents, event).log
    ensures var recorded := Recorded(cfg, s, event);
      && (Current(s, id) <==>
            LastWord(WaitingFor(s.outbox.pending, id), ToldOf(s.told, id)) ==
            RecordedLast(I.LogOf(s.incidents.log, id)))
      && (Current(Step(cfg, s, Observed(event)), id) <==>
            LastWord(WaitingFor(QueueAll(s.outbox, recorded).pending, id), ToldOf(s.told, id)) ==
            RecordedLast(I.LogOf(s.incidents.log + recorded, id)))
      && (KeepsCurrent(cfg, s, Observed(event), id) <==>
            SaysLast(WaitingFor(s.outbox.pending, id), Added(s.outbox, recorded, id),
                     WaitingFor(PushedOut(s.outbox, recorded), id), ToldOf(s.told, id), I.LogOf(recorded, id)))
  {
    hide LastWord, RecordedLast, WaitingFor, I.LogOf, QueueAll, I.Step, Added, PushedOut, EnvelopeOf, SaysLast;
    RecordedIsNew(cfg, s, event);
  }

  lemma SharedAgrees(waiting: seq<O.Envelope>, added: seq<O.Envelope>, pushed: seq<O.Envelope>, left: seq<O.Envelope>,
                     told: Option<nat>, log: seq<I.Emission>, about: seq<I.Emission>)
    requires waiting + added == pushed + left && |about| <= 1 && (about == [] ==> added == [])
    requires LastWord(waiting, told) == RecordedLast(log)
    ensures LastWord(left, told) == RecordedLast(log + about) <==> SaysLast(waiting, added, pushed, told, about)
  {
    hide EnvelopeOf;
    assert |pushed| < |waiting + added| <==> left != [];
    if left != [] {
      assert Last(pushed + left) == Last(left);
    }
    if about == [] {
      assert log + about == log;
    } else {
      assert Last(log + about) == about[0];
    }
  }

  /** An event that follows an up-to-date moment leaves the incident up to date exactly if it keeps it so. */
  lemma StepCurrentExactlyWhen(cfg: I.Config, s: State, event: Event, id: I.IncidentId)
    requires Sound(s.outbox, s.incidents.log) && s.incidents.log <= Step(cfg, s, event).incidents.log
    requires |I.LogOf(Step(cfg, s, event).incidents.log, id)| <= |I.LogOf(s.incidents.log, id)| + 1
    requires Current(s, id)
    ensures Current(Step(cfg, s, event), id) <==> KeepsCurrent(cfg, s, event, id)
  {
    hide Sound, WaitingFor, I.LogOf, EnvelopeOf, QueueAll, I.Step, TellAll, Recorded, IdText, O.RetriedAll, Added,
      PushedOut, IsNamed, O.Acknowledge;
    match event
    case Observed(observation) => ObservedCurrent(cfg, s, observation, id);
    case Uploaded => TellAllTells(s.told, s.outbox.pending, id);
    case Acknowledged(ids, now) =>
      AcknowledgedWaiting(s.outbox, s.incidents.log, ids, now, id);
      SoundIsDistinct(s.outbox, s.incidents.log);
      WaitingIsDistinct(s.outbox.pending, id);
      UnnamedAgrees(WaitingFor(s.outbox.pending, id), ids, ToldOf(s.told, id));
    case UploadFailed(message) => FailureKeepsWaiting(s.outbox.pending, id);
  }

  lemma SoundIsDistinct(o: O.Outbox, log: seq<I.Emission>)
    requires Sound(o, log)
    ensures O.DistinctPairs(o.pending)
  {}

  /** What an acknowledgement does not name. */
  function Unnamed(waiting: seq<O.Envelope>, ids: set<string>): seq<O.Envelope> {
    if waiting == [] then []
    else Unnamed(Init(waiting), ids) + if IsNamed(Last(waiting), ids) then [] else [Last(waiting)]
  }

  ghost predicate DistinctRevisions(waiting: seq<O.Envelope>) {
    forall i, j | 0 <= i < j < |waiting| :: waiting[i].revision != waiting[j].revision
  }

  lemma {:induction false} WaitingIsDistinct(pending: seq<O.Entry>, id: I.IncidentId)
    requires O.DistinctPairs(pending)
    ensures DistinctRevisions(WaitingFor(pending, id))
  {
    hide IdText;
    if pending == [] {
    } else {
      WaitingIsDistinct(Init(pending), id);
      var before := WaitingFor(Init(pending), id);
      if Last(pending).envelope.incidentId == IdText(id) {
        forall i | 0 <= i < |before| ensures before[i].revision != Last(pending).envelope.revision {
          WaitingForHas(Init(pending), id, before[i]);
        }
      }
    }
  }

  lemma {:induction false} UnnamedIsPart(waiting: seq<O.Envelope>, ids: set<string>)
    ensures forall v :: v in Unnamed(waiting, ids) <==> v in waiting && !IsNamed(v, ids)
  {
    hide IsNamed;
    if waiting == [] {
    } else {
      UnnamedIsPart(Init(waiting), ids);
      assert waiting == Init(waiting) + [Last(waiting)];
    }
  }

  lemma UnnamedAgrees(waiting: seq<O.Envelope>, ids: set<string>, told: Option<nat>)
    requires DistinctRevisions(waiting)
    ensures LastWord(Unnamed(waiting, ids), told) == LastWord(waiting, told) <==>
      || waiting == []
      || !IsNamed(Last(waiting), ids)
      || (told == Some(Last(waiting).revision) && forall v | v in waiting :: IsNamed(v, ids))
  {
    hide IsNamed;
    if waiting != [] && IsNamed(Last(waiting), ids) {
      var left := Unnamed(waiting, ids);
      UnnamedIsPart(waiting, ids);
      if left != [] {
        assert Last(left) in left;
        var i :| 0 <= i < |waiting| && waiting[i] == Last(left);
        assert i != |waiting| - 1;
      } else {
        forall v | v in waiting ensures IsNamed(v, ids) {
          assert v !in left;
        }
      }
    }
  }

  lemma {:induction false} KeptIsUnnamed(pending: seq<O.Entry>, log: seq<I.Emission>, ids: set<string>,
                                         id: I.IncidentId)
    requires Built(pending, log) && forall i | 0 <= i < |pending| :: O.OwnId(pending[i])
    ensures WaitingFor(O.Kept(pending, ids - {""}), id) == Unnamed(WaitingFor(pending, id), ids)
  {
    hide IdText, EnvelopeOf, IsReportOf, IsNamed;
    if pending == [] {
    } else {
      var entry, before := Last(pending), Init(pending);
      KeptIsUnnamed(before, log, ids, id);
      assert IsReportOf(entry, log);
      ReportHasId(entry, log);
      RequestedIsNamed(entry, ids);
      var kept, waiting := O.Kept(before, ids - {""}), WaitingFor(before, id);
      assert waiting + [] == waiting && Unnamed(waiting, ids) + [] == Unnamed(waiting, ids);
      WaitingForSnoc(kept, entry, id);
      UnnamedSnoc(waiting, entry.envelope, ids);
      assert O.Kept(pending, ids - {""}) == if IsNamed(entry.envelope, ids) then kept else kept + [entry];
    }
  }

  lemma RequestedIsNamed(entry: O.Entry, ids: set<string>)
    requires entry.id == entry.envelope.id
    ensures O.IsRequested(entry, ids - {""}) <==> IsNamed(entry.envelope, ids)
  {}

  lemma UnnamedSnoc(waiting: seq<O.Envelope>, envelope: O.Envelope, ids: set<string>)
    ensures Unnamed(waiting + [envelope], ids) ==
      Unnamed(waiting, ids) + if IsNamed(envelope, ids) then [] else [envelope]
  {
    assert Init(waiting + [envelope]) == waiting;
  }

  lemma ReportHasId(entry: O.Entry, log: seq<I.Emission>)
    requires IsReportOf(entry, log) && O.OwnId(entry)
    ensures entry.id == entry.envelope.id
  {}

  lemma {:induction false} NothingKeptAway(pending: seq<O.Entry>)
    ensures O.Kept(pending, {}) == pending
  {
    if pending == [] {
    } else {
      NothingKeptAway(Init(pending));
    }
  }

  /** An acknowledgement leaves the reports it does not name. */
  lemma AcknowledgedWaiting(o: O.Outbox, log: seq<I.Emission>, ids: set<string>, now: int, id: I.IncidentId)
    requires Sound(o, log)
    ensures WaitingFor(O.Acknowledge(o, ids, now).pending, id) == Unnamed(WaitingFor(o.pending, id), ids)
  {
    KeptIsUnnamed(o.pending, log, ids, id);
    if ids - {""} == {} {
      NothingKeptAway(o.pending);
    }
  }

  lemma EventReportsOnce(cfg: I.Config, startedAt: int, trace: seq<Event>, id: I.IncidentId)
    requires I.WellFormed(startedAt, Observations(trace)) && trace != []
    ensures var log, log' := Run(cfg, startedAt, Init(trace)).incidents.log, Run(cfg, startedAt, trace).incidents.log;
      |I.LogOf(log', id)| <= |I.LogOf(log, id)| + 1
  {
    IncidentsRun(cfg, startedAt, trace);
    IncidentsRun(cfg, startedAt, Init(trace));
    ObservationsSnoc(trace);
    hide Run, Observations, I.LogOf, I.Step;
    if Last(trace).Observed? {
      var observations := Observations(trace);
      I.PrefixIsWellFormed(startedAt, observations);
      I.SweepIsDistinct(startedAt, observations);
      I.RunInvariant(cfg, startedAt, Init(observations));
      I.LaterIsSound(cfg, I.Run(cfg, startedAt, Init(observations)), I.Clock(startedAt, Init(observations)),
                     Last(observations).now);
      I.EventRecordsOnce(cfg, I.Run(cfg, startedAt, Init(observations)), Last(observations), id);
    }
  }

  /**
    In a run an incident is up to date at every moment, so that every upload leaves the platform with what was
    recorded last, exactly if every event keeps it so.
   */
  lemma {:induction false} TellsLatestExactlyWhen(cfg: I.Config, startedAt: int, trace: seq<Event>, id: I.IncidentId)
    requires I.WellFormed(startedAt, Observations(trace))
    ensures (forall k | 0 <= k <= |trace| :: Current(Run(cfg, startedAt, trace[..k]), id)) <==>
      forall k | 0 <= k < |trace| :: KeepsCurrent(cfg, Run(cfg, startedAt, trace[..k]), trace[k], id)
  {
    hide Current, KeepsCurrent, Step, I.WellFormed, Observations;
    assert trace[..|trace|] == trace;
    if trace == [] {
      StartsCurrent(cfg, startedAt, id);
    } else {
      var before, n := Init(trace), |trace| - 1;
      LogNeverShrinks(cfg, startedAt, trace);
      forall k | 0 <= k <= n ensures before[..k] == trace[..k] {}
      TellsLatestExactlyWhen(cfg, startedAt, before, id);
      RunIsSound(cfg, startedAt, before);
      EventReportsOnce(cfg, startedAt, trace, id);
      assert trace[..n] == before;
      if Current(Run(cfg, startedAt, before), id) {
        StepCurrentExactlyWhen(cfg, Run(cfg, startedAt, before), Last(trace), id);
      }
      hide Run;
      forall k | 0 <= k < n ensures KeepsCurrent(cfg, Run(cfg, startedAt, before[..k]), before[k], id) ==
        KeepsCurrent(cfg, Run(cfg, startedAt, trace[..k]), trace[k], id) {}
    }
  }

  lemma StartsCurrent(cfg: I.Config, startedAt: int, id: I.IncidentId)
    ensures Current(Run(cfg, startedAt, []), id)
  {}

  // -------------------------------------------------------------- instances

  const LAMP := I.Device("lamp", I.OtherProtocol, I.Mains)
  const LAMP_OUTAGE := I.DeviceOffline("lamp")

  /** The lamp fails, is reported after an hour, comes back at once, and is resolved two minutes later. */
  function Outage(t: int): seq<Event> {
    [Observed(I.Unavailable(LAMP, t)), Observed(I.Sweep(t + I.HOUR, [LAMP_OUTAGE])),
     Observed(I.Available(LAMP, t + I.HOUR)), Observed(I.Sweep(t + I.HOUR + I.STABLE, [LAMP_OUTAGE]))]
  }

  function Opening(t: int): I.Emission {
    I.Emission(LAMP_OUTAGE, true, 1, t, t + I.HOUR)
  }

  function Resolution(t: int): I.Emission {
    I.Emission(LAMP_OUTAGE, false, 2, t, t + I.HOUR + I.STABLE)
  }

  lemma RunSnoc(trace: seq<Event>, event: Event)
    ensures Run(I.HUB, 0, trace + [event]) == Step(I.HUB, Run(I.HUB, 0, trace), event)
  {
    assert Init(trace + [event]) == trace;
  }

  /** A hub that knows of nothing but the lamp's incident, if there is one. */
  function Hub(incident: Option<I.Incident>, log: seq<I.Emission>): I.State {
    I.State(if incident.None? then map[] else map[LAMP_OUTAGE := incident.value], 0, log)
  }

  function Watched(t: int): I.Incident {
    I.Incident(LAMP_OUTAGE, I.Watching, 0, t, t, t + I.HOUR, None, None, false, I.OtherProtocol, I.Mains)
  }

  function Reported(t: int): I.Incident {
    Watched(t).(phase := I.Open, revision := 1, lastObservedAt := t + I.HOUR, openedAt := Some(t + I.HOUR))
  }

  function Recovering(t: int): I.Incident {
    Reported(t).(phase := I.Recovering, openBeforeRecovery := true, recoveredAt := Some(t + I.HOUR))
  }

  lemma Fails(log: seq<I.Emission>, t: int)
    ensures I.Step(I.HUB, Hub(None, log), I.Unavailable(LAMP, t)) == Hub(Some(Watched(t)), log)
  {}

  lemma Sweeps(s: I.State, now: int)
    requires LAMP_OUTAGE in s.active && I.HOUR <= now && s.startedAt == 0
    ensures I.Step(I.HUB, s, I.Sweep(now, [LAMP_OUTAGE])) ==
      I.SweepOne(I.HUB, s, LAMP_OUTAGE, s.active[LAMP_OUTAGE], now)
  {
    assert I.SweepTo(I.HUB, s, [LAMP_OUTAGE], now, 0) == s;
  }

  lemma Opens(log: seq<I.Emission>, t: int)
    requires 0 <= t
    ensures I.Step(I.HUB, Hub(Some(Watched(t)), log), I.Sweep(t + I.HOUR, [LAMP_OUTAGE])) ==
      Hub(Some(Reported(t)), log + [Opening(t)])
  {
    Sweeps(Hub(Some(Watched(t)), log), t + I.HOUR);
  }

  lemma Recovers(log: seq<I.Emission>, t: int)
    ensures I.Step(I.HUB, Hub(Some(Reported(t)), log), I.Available(LAMP, t + I.HOUR)) == Hub(Some(Recovering(t)), log)
  {}

  lemma Resolves(log: seq<I.Emission>, t: int)
    requires 0 <= t
    ensures I.Step(I.HUB, Hub(Some(Recovering(t)), log), I.Sweep(t + I.HOUR + I.STABLE, [LAMP_OUTAGE])) ==
      Hub(None, log + [Resolution(t)])
  {
    Sweeps(Hub(Some(Recovering(t)), log), t + I.HOUR + I.STABLE);
  }

  lemma QueuesOne(o: O.Outbox, e: I.Emission)
    ensures QueueAll(o, [e]) == O.Queue(o, EnvelopeOf(e), "", e.at)
    ensures QueueAll(o, []) == o
  {}

  function Queued(o: O.Outbox, e: I.Emission): O.Outbox {
    O.Queue(o, EnvelopeOf(e), "", e.at)
  }

  /** An observation that records nothing, and one that records one thing. */
  lemma ObservesQuietly(s: State, event: I.Event)
    requires I.Step(I.HUB, s.incidents, event).log == s.incidents.log
    ensures Step(I.HUB, s, Observed(event)) == s.(incidents := I.Step(I.HUB, s.incidents, event))
  {
    hide I.Step, QueueAll;
    QueuesOne(s.outbox, Opening(0));
    assert s.incidents.log[|s.incidents.log|..] == [];
  }

  lemma ObservesOne(s: State, event: I.Event, e: I.Emission)
    requires I.Step(I.HUB, s.incidents, event).log == s.incidents.log + [e]
    ensures Step(I.HUB, s, Observed(event)) ==
      s.(incidents := I.Step(I.HUB, s.incidents, event), outbox := Queued(s.outbox, e))
  {
    QueuesOne(s.outbox, e);
    hide I.Step, QueueAll;
    assert (s.incidents.log + [e])[|s.incidents.log|..] == [e];
  }

  /** The first half of an outage, until it is reported. */
  lemma Breaks(trace: seq<Event>, s: State, t: int)
    requires 0 <= t && Run(I.HUB, 0, trace) == s && s.incidents == Hub(None, s.incidents.log)
    ensures Run(I.HUB, 0, trace + Outage(t)[..2]) ==
      s.(incidents := Hub(Some(Reported(t)), s.incidents.log + [Opening(t)]), outbox := Queued(s.outbox, Opening(t)))
  {
    hide Run, Step, Reported, Watched, Queued, Opening, I.Step;
    var log, watched := s.incidents.log, s.(incidents := Hub(Some(Watched(t)), s.incidents.log));
    RunSnoc(trace, Outage(t)[0]);
    RunSnoc(trace + [Outage(t)[0]], Outage(t)[1]);
    Fails(log, t);
    ObservesQuietly(s, I.Unavailable(LAMP, t));
    Opens(log, t);
    ObservesOne(watched, I.Sweep(t + I.HOUR, [LAMP_OUTAGE]), Opening(t));
    assert trace + [Outage(t)[0]] + [Outage(t)[1]] == trace + Outage(t)[..2];
  }

  /** The second half, until it is resolved. */
  lemma Mends(trace: seq<Event>, s: State, t: int)
    requires 0 <= t && Run(I.HUB, 0, trace) == s && s.incidents == Hub(Some(Reported(t)), s.incidents.log)
    ensures Run(I.HUB, 0, trace + Outage(t)[2..]) ==
      s.(incidents := Hub(None, s.incidents.log + [Resolution(t)]), outbox := Queued(s.outbox, Resolution(t)))
  {
    hide Run, Step, Reported, Recovering, Queued, Resolution, I.Step;
    var log, back := s.incidents.log, s.(incidents := Hub(Some(Recovering(t)), s.incidents.log));
    RunSnoc(trace, Outage(t)[2]);
    RunSnoc(trace + [Outage(t)[2]], Outage(t)[3]);
    Recovers(log, t);
    ObservesQuietly(s, I.Available(LAMP, t + I.HOUR));
    Resolves(log, t);
    ObservesOne(back, I.Sweep(t + I.HOUR + I.STABLE, [LAMP_OUTAGE]), Resolution(t));
    assert trace + [Outage(t)[2]] + [Outage(t)[3]] == trace + Outage(t)[2..];
  }

  /** What waits. */
  predicate Holds(o: O.Outbox, emissions: seq<I.Emission>) {
    && |o.pending| == |emissions|
    && forall i | 0 <= i < |emissions| :: o.pending[i] == O.NewEntry(EnvelopeOf(emissions[i]), "", emissions[i].at)
  }

  /** A report of another revision than the one that waits is queued, a third of the same incident is not. */
  lemma QueuesSecond(o: O.Outbox, first: I.Emission, second: I.Emission)
    requires Holds(o, [first]) && first.incidentId == second.incidentId && {first.revision, second.revision} == {1, 2}
    ensures Holds(Queued(o, second), [first, second])
  {
    EnvelopesAreIdentified(first, second);
    hide Text, IdText;
  }

  lemma QueuesFirst(o: O.Outbox, first: I.Emission)
    requires o.pending == []
    ensures Holds(Queued(o, first), [first])
  {
    hide Text, IdText;
  }

  lemma DropsRepeat(o: O.Outbox, first: I.Emission, second: I.Emission, e: I.Emission)
    requires Holds(o, [first, second]) && e.incidentId == first.incidentId && e.revision == first.revision
    ensures Queued(o, e) == o
  {
    hide Text, IdText;
    assert O.Carries(o.pending[0], EnvelopeOf(e));
  }

  /** An upload while the opening is all that waits. */
  lemma TellsOpening(o: O.Outbox, t: int)
    requires Holds(o, [Opening(t)])
    ensures TellAll(map[], o.pending) == map[IdText(LAMP_OUTAGE) := 1]
  {
    assert Init(o.pending) == [];
  }

  lemma StartsEmpty()
    ensures Run(I.HUB, 0, []) == State(Hub(None, []), O.EMPTY, map[])
  {}

  const AGAIN := I.HOUR + I.STABLE

  /** The second outage is open, and what waits for the platform says last that the first is over. */
  lemma ReopenedOutageLooksResolved()
    ensures var s := Run(I.HUB, 0, [] + Outage(0)[..2] + Outage(0)[2..] + Outage(AGAIN)[..2]);
      && I.IsReported(s.incidents, LAMP_OUTAGE)
      && Holds(s.outbox, [Opening(0), Resolution(0)])
  {
    hide Run, Queued, Holds, EnvelopeOf;
    StartsEmpty();
    var start := Run(I.HUB, 0, []);
    Breaks([], start, 0);
    var broken := Run(I.HUB, 0, [] + Outage(0)[..2]);
    Mends([] + Outage(0)[..2], broken, 0);
    var mended := Run(I.HUB, 0, [] + Outage(0)[..2] + Outage(0)[2..]);
    Breaks([] + Outage(0)[..2] + Outage(0)[2..], mended, AGAIN);
    QueuesFirst(O.EMPTY, Opening(0));
    QueuesSecond(broken.outbox, Opening(0), Resolution(0));
    DropsRepeat(mended.outbox, Opening(0), Resolution(0), Opening(AGAIN));
  }

  /** The first half of an outage, and an upload before the lamp is back. */
  function Told(): seq<Event> {
    [] + Outage(0)[..2] + [Uploaded]
  }

  lemma ToldState()
    ensures var s := Run(I.HUB, 0, Told());
      s == State(Hub(Some(Reported(0)), [Opening(0)]), Queued(O.EMPTY, Opening(0)), map[IdText(LAMP_OUTAGE) := 1])
    ensures Holds(Queued(O.EMPTY, Opening(0)), [Opening(0)])
  {
    hide Run, Queued, Holds, EnvelopeOf, Reported, IdText;
    StartsEmpty();
    Breaks([], Run(I.HUB, 0, []), 0);
    RunSnoc([] + Outage(0)[..2], Uploaded);
    QueuesFirst(O.EMPTY, Opening(0));
    TellsOpening(Queued(O.EMPTY, Opening(0)), 0);
    assert [] + [Opening(0)] == [Opening(0)];
  }

  const FIRST_OPENING := "device_offline:lamp:1"

  /** Only the opening is acknowledged. */
  lemma KeepsResolution(o: O.Outbox, now: int)
    requires Holds(o, [Opening(0), Resolution(0)])
    ensures Holds(O.Acknowledge(o, {FIRST_OPENING}, now), [Resolution(0)])
  {
    OpeningIsNamed();
    hide Text, IdText;
    var a, b := o.pending[0], o.pending[1];
    assert o.pending == [a, b];
    assert O.IsRequested(a, {FIRST_OPENING}) && !O.IsRequested(b, {FIRST_OPENING});
    KeepsSecond(a, b, {FIRST_OPENING});
    assert {FIRST_OPENING} - {""} == {FIRST_OPENING};
  }

  lemma KeepsSecond(a: O.Entry, b: O.Entry, ids: set<string>)
    requires O.IsRequested(a, ids) && !O.IsRequested(b, ids)
    ensures O.Kept([a, b], ids) == [b]
  {
    assert Init([a]) == [] && Init([a, b]) == [a];
    assert O.Kept([], ids) == [] && O.Kept([a], ids) == [];
    assert [] + [b] == [b];
  }

  lemma OpeningIsNamed()
    ensures EnvelopeOf(Opening(0)).id == FIRST_OPENING && EnvelopeOf(Resolution(0)).id != FIRST_OPENING
    ensures IdText(LAMP_OUTAGE) != FIRST_OPENING
  {
    assert Text(1) == "1" && Text(2) == "2";
    assert EnvelopeOf(Opening(0)).id[20] == '1' && EnvelopeOf(Resolution(0)).id[20] == '2';
  }

  /**
    The opening of an outage is uploaded, and acknowledged when the resolution waits already; then the lamp fails and
    comes back again.  Both outages are over, and the last report that waits is an opening.
   */
  lemma ResolvedOutageLooksOpen()
    ensures var s := Run(I.HUB, 0, Told() + Outage(0)[2..] + [Acknowledged({FIRST_OPENING}, AGAIN)]
                                 + Outage(AGAIN)[..2] + Outage(AGAIN)[2..]);
      && !I.IsReported(s.incidents, LAMP_OUTAGE)
      && Holds(s.outbox, [Resolution(0), Opening(AGAIN)])
  {
    hide Run, Queued, Holds, EnvelopeOf, IdText, O.Acknowledge;
    ToldState();
    var told := Run(I.HUB, 0, Told());
    Mends(Told(), told, 0);
    var mended := Run(I.HUB, 0, Told() + Outage(0)[2..]);
    QueuesSecond(told.outbox, Opening(0), Resolution(0));
    RunSnoc(Told() + Outage(0)[2..], Acknowledged({FIRST_OPENING}, AGAIN));
    KeepsResolution(mended.outbox, AGAIN);
    var trace := Told() + Outage(0)[2..] + [Acknowledged({FIRST_OPENING}, AGAIN)];
    var acknowledged := Run(I.HUB, 0, trace);
    Breaks(trace, acknowledged, AGAIN);
    QueuesSecond(acknowledged.outbox, Resolution(0), Opening(AGAIN));
    var broken := Run(I.HUB, 0, trace + Outage(AGAIN)[..2]);
    Mends(trace + Outage(AGAIN)[..2], broken, AGAIN);
    DropsRepeat(broken.outbox, Resolution(0), Opening(AGAIN), Resolution(AGAIN));
  }

  lemma FirstIsIn<T>(s: seq<T>)
    ensures s == [] || s[0] in s
  {}

  /** An acknowledgement by incident takes everything that waits about it. */
  lemma TakesBoth(o: O.Outbox, now: int)
    requires Holds(o, [Opening(0), Resolution(0)])
    ensures O.Acknowledge(o, {IdText(LAMP_OUTAGE)}, now).pending == []
  {
    hide Text;
    var ids := {IdText(LAMP_OUTAGE)};
    assert IdText(LAMP_OUTAGE) != "" && ids - {""} == ids;
    forall e | e in o.pending ensures O.IsRequested(e, ids) {}
    O.SplitIsExact(o.pending, ids);
    FirstIsIn(O.Kept(o.pending, ids));
  }

  /**
    The opening of an outage is uploaded, and the answer names the incident when the resolution waits already.  The
    outage is over, nothing waits, and the platform was told last that it is open.
   */
  lemma UnsentResolutionIsTaken()
    ensures var s := Run(I.HUB, 0, Told() + Outage(0)[2..] + [Acknowledged({IdText(LAMP_OUTAGE)}, AGAIN)]);
      && !I.IsReported(s.incidents, LAMP_OUTAGE) && s.outbox.pending == []
      && ToldOf(s.told, LAMP_OUTAGE) == Some(1) && RecordedLast(I.LogOf(s.incidents.log, LAMP_OUTAGE)) == Some(2)
  {
    hide Run, Queued, Holds, IdText, O.Acknowledge;
    ToldState();
    var told := Run(I.HUB, 0, Told());
    Mends(Told(), told, 0);
    var mended := Run(I.HUB, 0, Told() + Outage(0)[2..]);
    QueuesSecond(told.outbox, Opening(0), Resolution(0));
    RunSnoc(Told() + Outage(0)[2..], Acknowledged({IdText(LAMP_OUTAGE)}, AGAIN));
    TakesBoth(mended.outbox, AGAIN);
    I.LogOfSnoc([Opening(0)], Resolution(0), LAMP_OUTAGE);
  }
}
