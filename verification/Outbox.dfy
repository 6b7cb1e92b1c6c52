/** The bounded outbox of incident envelopes waiting for the platform's acknowledgement. */
module Outbox {
  import opened Prelude

  const CAPACITY: nat := 100

  /** An absent id is "", an absent revision is 0. */
  datatype Envelope = Envelope(id: string, incidentId: string, revision: nat, firstObservedAt: int)

  datatype Entry = Entry(id: string, envelope: Envelope, attempts: nat, createdAt: int)

  datatype Receipt = Receipt(acknowledgedAt: int, incidentId: string, revision: nat)

  datatype Outbox = Outbox(pending: seq<Entry>, acknowledged: map<string, Receipt>, lastError: Option<string>,
                           lastUploadAt: Option<int>)

  // ---------------------------------------------------------------- steps

  function Revision(envelope: Envelope): nat {
    if envelope.revision == 0 then 1 else envelope.revision
  }

  /** The queue's test for an entry that already carries an envelope. */
  predicate Carries(entry: Entry, envelope: Envelope) {
    || (if entry.envelope.id != "" then entry.envelope.id else entry.id) == envelope.id
    || (entry.envelope.incidentId == envelope.incidentId && entry.envelope.revision == Revision(envelope))
  }

  predicate AlreadyPending(pending: seq<Entry>, envelope: Envelope) {
    exists i | 0 <= i < |pending| :: Carries(pending[i], envelope)
  }

  function NewEntry(envelope: Envelope, uuid: string, now: int): Entry {
    Entry(if envelope.id != "" then envelope.id else uuid, envelope, 0, now)
  }

  /** The last `n` elements. */
  function Latest<T>(s: seq<T>, n: nat): seq<T> {
    if |s| <= n then s else s[|s| - n..]
  }

  function Queue(o: Outbox, envelope: Envelope, uuid: string, now: int): Outbox {
    if AlreadyPending(o.pending, envelope) then o
    else o.(pending := Latest(o.pending + [NewEntry(envelope, uuid, now)], CAPACITY), lastError := None)
  }

  predicate IsRequested(entry: Entry, ids: set<string>) {
    entry.id in ids || entry.envelope.id in ids || entry.envelope.incidentId in ids
  }

  function Kept(pending: seq<Entry>, ids: set<string>): seq<Entry> {
    if pending == [] then []
    else if IsRequested(Last(pending), ids) then Kept(Init(pending), ids)
    else Kept(Init(pending), ids) + [Last(pending)]
  }

  function Taken(pending: seq<Entry>, ids: set<string>): seq<Entry> {
    if pending == [] then []
    else if IsRequested(Last(pending), ids) then Taken(Init(pending), ids) + [Last(pending)]
    else Taken(Init(pending), ids)
  }

  /** Receipts for entries, a later one replacing an earlier one with the same id. */
  function WithReceipts(acknowledged: map<string, Receipt>, taken: seq<Entry>, now: int): map<string, Receipt> {
    if taken == [] then acknowledged
    else
      var entry := Last(taken);
      var receipt := Receipt(now, entry.envelope.incidentId, entry.envelope.revision);
      WithReceipts(acknowledged, Init(taken), now)[entry.id := receipt]
  }

  function Acknowledge(o: Outbox, ids: set<string>, now: int): Outbox {
    if ids - {""} == {} then o
    else o.(pending := Kept(o.pending, ids - {""}),
            acknowledged := WithReceipts(o.acknowledged, Taken(o.pending, ids - {""}), now),
            lastUploadAt := Some(now))
  }

  function Retried(entry: Entry): Entry {
    entry.(attempts := entry.attempts + 1)
  }

  function RetriedAll(pending: seq<Entry>): (r: seq<Entry>)
    ensures |r| == |pending|
    ensures forall i | 0 <= i < |r| :: r[i] == Retried(pending[i])
  {
    if pending == [] then [] else RetriedAll(Init(pending)) + [Retried(Last(pending))]
  }

  function UploadFailed(o: Outbox, message: string): Outbox {
    o.(pending := RetriedAll(o.pending), lastError := Some(message))
  }

  datatype Op =
    | Enqueue(envelope: Envelope, uuid: string, queuedAt: int)
    | Ack(ids: set<string>, ackedAt: int)
    | Failed(message: string)

  function Apply(o: Outbox, op: Op): Outbox {
    match op
    case Enqueue(envelope, uuid, now) => Queue(o, envelope, uuid, now)
    case Ack(ids, now) => Acknowledge(o, ids, now)
    case Failed(message) => UploadFailed(o, message)
  }

  function Run(o: Outbox, ops: seq<Op>): Outbox {
    if ops == [] then o else Apply(Run(o, Init(ops)), Last(ops))
  }

  // ------------------------------------------------------------ invariants

  ghost predicate DistinctIds(pending: seq<Entry>) {
    forall i, j | 0 <= i < j < |pending| :: pending[i].id != pending[j].id
  }

  ghost predicate DistinctPairs(pending: seq<Entry>) {
    forall i, j | 0 <= i < j < |pending| ::
      !(pending[i].envelope.incidentId == pending[j].envelope.incidentId &&
        pending[i].envelope.revision == pending[j].envelope.revision)
  }

  predicate OwnId(entry: Entry) {
    entry.id != "" && (entry.envelope.id != "" ==> entry.envelope.id == entry.id)
  }

  /** The random identifier for an envelope without one is new. */
  predicate Fresh(pending: seq<Entry>, envelope: Envelope, uuid: string) {
    envelope.id != "" || (uuid != "" && forall i | 0 <= i < |pending| :: pending[i].id != uuid)
  }

  ghost predicate Valid(o: Outbox) {
    && |o.pending| <= CAPACITY
    && (forall i | 0 <= i < |o.pending| :: OwnId(o.pending[i]))
    && DistinctIds(o.pending)
  }

  /** The list after queueing a new envelope: the latest entries, then the new one. */
  lemma QueuedList(o: Outbox, envelope: Envelope, uuid: string, now: int) returns (dropped: nat)
    requires Valid(o) && !AlreadyPending(o.pending, envelope)
    ensures dropped == if |o.pending| < CAPACITY then 0 else |o.pending| - CAPACITY + 1
    ensures Queue(o, envelope, uuid, now).pending == o.pending[dropped..] + [NewEntry(envelope, uuid, now)]
    ensures forall i | 0 <= i < |o.pending| :: !Carries(o.pending[i], envelope)
  {
    var all := o.pending + [NewEntry(envelope, uuid, now)];
    dropped := if |o.pending| < CAPACITY then 0 else |o.pending| - CAPACITY + 1;
    assert all[dropped..] == o.pending[dropped..] + [NewEntry(envelope, uuid, now)];
    assert Latest(all, CAPACITY) == all[dropped..];
  }

  /**
    Two entries never share an id, and they never share incident and revision unless an envelope came without a
    revision.  Afterwards the envelope is pending, unless it came with neither id nor revision.
   */
  lemma QueueKeepsValid(o: Outbox, envelope: Envelope, uuid: string, now: int)
    requires Valid(o) && Fresh(o.pending, envelope, uuid)
    ensures var o' := Queue(o, envelope, uuid, now);
      && Valid(o')
      && (envelope.revision != 0 && DistinctPairs(o.pending) ==> DistinctPairs(o'.pending))
      && (AlreadyPending(o'.pending, envelope) <==>
           envelope.id != "" || envelope.revision != 0 || AlreadyPending(o.pending, envelope))
  {
    if !AlreadyPending(o.pending, envelope) {
      var dropped := QueuedList(o, envelope, uuid, now);
      var entry := NewEntry(envelope, uuid, now);
      var kept := o.pending[dropped..];
      var pending := Queue(o, envelope, uuid, now).pending;
      forall i | 0 <= i < |kept|
        ensures pending[i] == o.pending[dropped + i] && pending[i].id != entry.id && !Carries(pending[i], envelope)
      {}
      assert pending[|kept|] == entry && OwnId(entry);
      assert Carries(entry, envelope) <==> envelope.id != "" || envelope.revision != 0;
      hide Carries, NewEntry, OwnId;
    }
  }

  /** Envelopes without a revision are the ones for which the pair check does not work. */
  lemma RevisionlessEnvelopesRepeat(uuid1: string, uuid2: string, now: int)
    requires uuid1 != "" && uuid2 != "" && uuid1 != uuid2
    ensures var envelope := Envelope("", "incident", 0, now);
      var o := Queue(Queue(Outbox([], map[], None, None), envelope, uuid1, now), envelope, uuid2, now);
      |o.pending| == 2 && !DistinctPairs(o.pending)
  {
    var envelope := Envelope("", "incident", 0, now);
    var empty := EMPTY;
    var once := Queue(empty, envelope, uuid1, now);
    var _ := QueuedList(empty, envelope, uuid1, now);
    assert once.pending[0] == NewEntry(envelope, uuid1, now);
    assert !AlreadyPending(once.pending, envelope);
    var _ := QueuedList(once, envelope, uuid2, now);
    var pending := Queue(once, envelope, uuid2, now).pending;
    assert pending[0].envelope == envelope && pending[1].envelope == envelope;
  }

  /**
    Queueing keeps incidents and revisions pairwise distinct exactly when the envelope has a revision, is already
    pending, or meets no pending entry without one for the same incident that outlives the bound.
   */
  lemma PairsStayDistinctExactlyWhen(o: Outbox, envelope: Envelope, uuid: string, now: int)
    requires Valid(o) && Fresh(o.pending, envelope, uuid) && DistinctPairs(o.pending)
    ensures DistinctPairs(Queue(o, envelope, uuid, now).pending) <==>
      || envelope.revision != 0
      || AlreadyPending(o.pending, envelope)
      || forall i | (if |o.pending| < CAPACITY then 0 else |o.pending| - CAPACITY + 1) <= i < |o.pending| ::
           !(o.pending[i].envelope.incidentId == envelope.incidentId && o.pending[i].envelope.revision == 0)
  {
    QueueKeepsValid(o, envelope, uuid, now);
    if envelope.revision == 0 && !AlreadyPending(o.pending, envelope) {
      var dropped := QueuedList(o, envelope, uuid, now);
      var kept := o.pending[dropped..];
      var pending := Queue(o, envelope, uuid, now).pending;
      assert pending[|kept|].envelope == envelope;
      assert forall i | 0 <= i < |kept| :: pending[i] == o.pending[dropped + i];
      if DistinctPairs(pending) {
        forall i | dropped <= i < |o.pending|
          ensures !(o.pending[i].envelope.incidentId == envelope.incidentId && o.pending[i].envelope.revision == 0)
        {
          assert pending[i - dropped] == o.pending[i];
        }
      }
    }
  }

  /** Acknowledging splits the list: what is kept and what is taken, each in the old order, nothing twice. */
  lemma {:induction false} SplitIsExact(pending: seq<Entry>, ids: set<string>)
    ensures multiset(pending) == multiset(Kept(pending, ids)) + multiset(Taken(pending, ids))
    ensures forall e :: e in Kept(pending, ids) <==> e in pending && !IsRequested(e, ids)
    ensures forall e :: e in Taken(pending, ids) <==> e in pending && IsRequested(e, ids)
    ensures |pending| == |Kept(pending, ids)| + |Taken(pending, ids)|
  {
    if pending == [] {
    } else {
      SplitIsExact(Init(pending), ids);
      assert pending == Init(pending) + [Last(pending)];
    }
  }

  /** A subsequence keeps everything that is pairwise different. */
  lemma {:induction false} KeptIsDistinct(pending: seq<Entry>, ids: set<string>)
    requires DistinctIds(pending)
    ensures DistinctIds(Kept(pending, ids))
    ensures DistinctPairs(pending) ==> DistinctPairs(Kept(pending, ids))
  {
    if pending == [] {
    } else {
      KeptIsDistinct(Init(pending), ids);
      SplitIsExact(Init(pending), ids);
      var kept := Kept(Init(pending), ids);
      forall i | 0 <= i < |kept|
        ensures kept[i].id != Last(pending).id
        ensures DistinctPairs(pending) ==>
          !(kept[i].envelope.incidentId == Last(pending).envelope.incidentId &&
            kept[i].envelope.revision == Last(pending).envelope.revision)
      {
        assert kept[i] in Init(pending);
        var j :| 0 <= j < |Init(pending)| && pending[j] == kept[i];
      }
    }
  }

  /** Every taken entry has a receipt for its own incident and revision, and other receipts are as before. */
  lemma {:induction false} TakenHaveReceipts(acknowledged: map<string, Receipt>, taken: seq<Entry>, now: int)
    requires DistinctIds(taken)
    ensures var after := WithReceipts(acknowledged, taken, now);
      && (forall i | 0 <= i < |taken| ::
           taken[i].id in after &&
             after[taken[i].id] == Receipt(now, taken[i].envelope.incidentId, taken[i].envelope.revision))
      && (forall id | id in acknowledged :: id in after)
      && (forall id | id in after && (forall i | 0 <= i < |taken| :: taken[i].id != id) ::
           id in acknowledged && after[id] == acknowledged[id])
  {
    if taken == [] {
    } else {
      TakenHaveReceipts(acknowledged, Init(taken), now);
      assert forall i | 0 <= i < |taken| - 1 :: Init(taken)[i] == taken[i];
    }
  }

  lemma {:induction false} TakenIsDistinct(pending: seq<Entry>, ids: set<string>)
    requires DistinctIds(pending)
    ensures DistinctIds(Taken(pending, ids))
  {
    if pending == [] {
    } else {
      TakenIsDistinct(Init(pending), ids);
      SplitIsExact(Init(pending), ids);
      var taken := Taken(Init(pending), ids);
      forall i | 0 <= i < |taken| ensures taken[i].id != Last(pending).id {
        assert taken[i] in Init(pending);
        var j :| 0 <= j < |Init(pending)| && pending[j] == taken[i];
      }
    }
  }

  lemma AcknowledgeKeepsValid(o: Outbox, ids: set<string>, now: int)
    requires Valid(o)
    ensures Valid(Acknowledge(o, ids, now))
    ensures DistinctPairs(o.pending) ==> DistinctPairs(Acknowledge(o, ids, now).pending)
  {
    var kept := Kept(o.pending, ids - {""});
    SplitIsExact(o.pending, ids - {""});
    KeptIsDistinct(o.pending, ids - {""});
    forall i | 0 <= i < |kept| ensures OwnId(kept[i]) {
      assert kept[i] in o.pending;
    }
  }

  /** Acknowledging moves exactly the requested entries from the list to the receipts. */
  lemma AcknowledgeIsExact(o: Outbox, ids: set<string>, now: int)
    requires Valid(o)
    ensures var o' := Acknowledge(o, ids, now);
      && (forall e :: e in o'.pending <==> e in o.pending && !IsRequested(e, ids - {""}))
      && (forall e | e in o.pending && IsRequested(e, ids - {""}) ::
            e.id in o'.acknowledged &&
              o'.acknowledged[e.id] == Receipt(now, e.envelope.incidentId, e.envelope.revision))
      && o.acknowledged.Keys <= o'.acknowledged.Keys
      && (forall id | id in o'.acknowledged && id !in o.acknowledged :: exists e ::
           e in o.pending && e.id == id && IsRequested(e, ids - {""}))
  {
    var wanted := ids - {""};
    SplitIsExact(o.pending, wanted);
    if wanted != {} {
      var taken := Taken(o.pending, wanted);
      TakenIsDistinct(o.pending, wanted);
      TakenHaveReceipts(o.acknowledged, taken, now);
      forall id | id in WithReceipts(o.acknowledged, taken, now) && id !in o.acknowledged
        ensures exists e :: e in o.pending && e.id == id && IsRequested(e, wanted)
      {
        var i :| 0 <= i < |taken| && taken[i].id == id;
        assert taken[i] in taken;
      }
    }
  }

  // ------------------------------------------------------------------ runs

  const EMPTY := Outbox([], map[], None, None)

  /** Identifiers drawn during a run are new. */
  ghost predicate Drawn(o: Outbox, ops: seq<Op>) {
    forall k | 0 <= k < |ops| && ops[k].Enqueue? :: Fresh(Run(o, ops[..k]).pending, ops[k].envelope, ops[k].uuid)
  }

  /** Envelopes carry a revision, as the ones built from incidents do. */
  ghost predicate Numbered(ops: seq<Op>) {
    forall k | 0 <= k < |ops| && ops[k].Enqueue? :: ops[k].envelope.revision != 0
  }

  lemma ApplyKeepsValid(o: Outbox, op: Op)
    requires Valid(o) && (op.Enqueue? ==> Fresh(o.pending, op.envelope, op.uuid))
    ensures Valid(Apply(o, op))
    ensures DistinctPairs(o.pending) && (op.Enqueue? ==> op.envelope.revision != 0) ==>
      DistinctPairs(Apply(o, op).pending)
  {
    match op
    case Enqueue(envelope, uuid, now) => QueueKeepsValid(o, envelope, uuid, now);
    case Ack(ids, now) => AcknowledgeKeepsValid(o, ids, now);
    case Failed(_) =>
  }

  lemma DrawnPrefix(o: Outbox, ops: seq<Op>)
    requires ops != []
    ensures Drawn(o, ops) <==>
      Drawn(o, Init(ops)) &&
        (Last(ops).Enqueue? ==> Fresh(Run(o, Init(ops)).pending, Last(ops).envelope, Last(ops).uuid))
  {
    assert forall k | 0 <= k < |Init(ops)| :: Init(ops)[..k] == ops[..k] && Init(ops)[k] == ops[k];
    assert Init(ops) == ops[..|ops| - 1];
    if Drawn(o, Init(ops)) &&
      (Last(ops).Enqueue? ==> Fresh(Run(o, Init(ops)).pending, Last(ops).envelope, Last(ops).uuid)) {
      forall k | 0 <= k < |ops| && ops[k].Enqueue?
        ensures Fresh(Run(o, ops[..k]).pending, ops[k].envelope, ops[k].uuid)
      {
        assert k < |Init(ops)| ==> Init(ops)[k].Enqueue?;
      }
    }
  }

  /**
    In every run: at most 100 entries and distinct ids; if envelopes have revisions, distinct (incident, revision)
    pairs.
   */
  lemma {:induction false} OutboxInvariant(o: Outbox, ops: seq<Op>)
    requires Valid(o) && Drawn(o, ops)
    ensures Valid(Run(o, ops))
    ensures DistinctPairs(o.pending) && Numbered(ops) ==> DistinctPairs(Run(o, ops).pending)
  {
    hide Valid, DistinctPairs, Apply, Drawn;
    if ops == [] {
    } else {
      DrawnPrefix(o, ops);
      OutboxInvariant(o, Init(ops));
      ApplyKeepsValid(Run(o, Init(ops)), Last(ops));
      assert Numbered(ops) ==> Numbered(Init(ops));
    }
  }

  // ---------------------------------------------------------- conservation

  /** How many entries have an id. */
  function Count(pending: seq<Entry>, id: string): nat {
    if pending == [] then 0 else Count(Init(pending), id) + if Last(pending).id == id then 1 else 0
  }

  /** Entries with an id that an operation put into the list. */
  function Entered(o: Outbox, op: Op, id: string): nat {
    if && op.Enqueue? && !AlreadyPending(o.pending, op.envelope)
       && NewEntry(op.envelope, op.uuid, op.queuedAt).id == id
    then 1 else 0
  }

  /** Entries with an id that an operation pushed out because the list was full. */
  function Evicted(o: Outbox, op: Op, id: string): nat {
    if op.Enqueue? && !AlreadyPending(o.pending, op.envelope) && |o.pending| >= CAPACITY
    then Count(o.pending[..|o.pending| - CAPACITY + 1], id) else 0
  }

  /** Entries with an id that an operation moved to the receipts. */
  function Receipted(o: Outbox, op: Op, id: string): nat {
    if op.Ack? then Count(Taken(o.pending, op.ids - {""}), id) else 0
  }

  lemma {:induction false} CountConcat(a: seq<Entry>, b: seq<Entry>, id: string)
    ensures Count(a + b, id) == Count(a, id) + Count(b, id)
  {
    if b == [] {
      assert a + b == a;
    } else {
      assert Init(a + b) == a + Init(b);
      CountConcat(a, Init(b), id);
    }
  }

  lemma {:induction false} CountSplit(pending: seq<Entry>, ids: set<string>, id: string)
    ensures Count(pending, id) == Count(Kept(pending, ids), id) + Count(Taken(pending, ids), id)
  {
    hide IsRequested;
    if pending == [] {
    } else {
      CountSplit(Init(pending), ids, id);
      CountConcat(Kept(Init(pending), ids), [Last(pending)], id);
      CountConcat(Taken(Init(pending), ids), [Last(pending)], id);
    }
  }

  lemma {:induction false} CountRetried(pending: seq<Entry>, id: string)
    ensures Count(RetriedAll(pending), id) == Count(pending, id)
  {
    if pending == [] {
    } else {
      CountRetried(Init(pending), id);
      assert Init(RetriedAll(pending)) == RetriedAll(Init(pending));
    }
  }

  lemma {:induction false} NothingTaken(pending: seq<Entry>)
    ensures Taken(pending, {}) == []
  {
    if pending == [] {
    } else {
      NothingTaken(Init(pending));
    }
  }

  lemma QueueConserves(o: Outbox, envelope: Envelope, uuid: string, now: int, id: string)
    requires Valid(o) && !AlreadyPending(o.pending, envelope)
    ensures Count(o.pending, id) + (if NewEntry(envelope, uuid, now).id == id then 1 else 0) ==
      Count(Queue(o, envelope, uuid, now).pending, id)
      + if |o.pending| >= CAPACITY then Count(o.pending[..|o.pending| - CAPACITY + 1], id) else 0
  {
    var dropped := QueuedList(o, envelope, uuid, now);
    hide Queue, NewEntry, AlreadyPending, Valid;
    assert o.pending == o.pending[..dropped] + o.pending[dropped..];
    CountConcat(o.pending[..dropped], o.pending[dropped..], id);
    CountConcat(o.pending[dropped..], [NewEntry(envelope, uuid, now)], id);
  }

  /** One operation: what was there and what came in is what is there, what was acknowledged and what was pushed out. */
  lemma StepConserves(o: Outbox, op: Op, id: string)
    requires Valid(o)
    ensures Count(o.pending, id) + Entered(o, op, id) ==
      Count(Apply(o, op).pending, id) + Receipted(o, op, id) + Evicted(o, op, id)
  {
    hide Count, Valid, AlreadyPending, NewEntry, Kept, Taken;
    match op
    case Enqueue(envelope, uuid, now) =>
      if !AlreadyPending(o.pending, envelope) {
        QueueConserves(o, envelope, uuid, now, id);
        hide Queue;
      }
    case Ack(ids, now) =>
      CountSplit(o.pending, ids - {""}, id);
      if ids - {""} == {} {
        NothingTaken(o.pending);
        NothingCounted(id);
      }
    case Failed(message) => CountRetried(o.pending, id);
  }

  lemma NothingCounted(id: string)
    ensures Count([], id) == 0
  {}

  datatype Account = Account(entered: nat, receipted: nat, evicted: nat)

  /** Totals over a run, for one id. */
  function Accounts(o: Outbox, ops: seq<Op>, id: string): Account {
    if ops == [] then Account(0, 0, 0)
    else
      var before, at, op := Accounts(o, Init(ops), id), Run(o, Init(ops)), Last(ops);
      Account(before.entered + Entered(at, op, id), before.receipted + Receipted(at, op, id),
              before.evicted + Evicted(at, op, id))
  }

  /** Over every run, each entry that ever entered is pending, acknowledged or pushed out: once each. */
  lemma {:induction false} RunConserves(o: Outbox, ops: seq<Op>, id: string)
    requires Valid(o) && Drawn(o, ops)
    ensures var a := Accounts(o, ops, id);
      Count(o.pending, id) + a.entered == Count(Run(o, ops).pending, id) + a.receipted + a.evicted
  {
    if ops == [] {
    } else {
      DrawnPrefix(o, ops);
      RunConserves(o, Init(ops), id);
      OutboxInvariant(o, Init(ops));
      StepConserves(Run(o, Init(ops)), Last(ops), id);
    }
  }
}
