/**
  The part of the hub's store that holds the activity ledger and the incident outbox.  Every change is written to
  disk before it counts: `saved` says whether that write succeeds, and a failed write leaves the store as it was.
 */
module Store {
  import opened Prelude
  import L = Ledger
  import O = Outbox

  datatype Status = Done | MissingIncidentId | NotSaved

  class HubStore {
    var nextSequence: nat
    var records: seq<L.Record>
    const maxRecords: nat
    var pending: seq<O.Entry>
    var acknowledged: map<string, O.Receipt>
    var lastError: Option<string>
    var lastUploadAt: Option<int>
    /** What has been done to the ledger and to the outbox so far, without what was undone. */
    ghost var ledgerOps: seq<L.Op>
    ghost var outboxOps: seq<O.Op>

    ghost function Activity(): L.Ledger
      reads `nextSequence, `records
    {
      L.Ledger(nextSequence, records, maxRecords)
    }

    ghost function IncidentOutbox(): O.Outbox
      reads `pending, `acknowledged, `lastError, `lastUploadAt
    {
      O.Outbox(pending, acknowledged, lastError, lastUploadAt)
    }

    ghost predicate LedgerFollows()
      reads `nextSequence, `records, `ledgerOps
    {
      Activity() == L.ApplyAll(L.Ledger(1, [], maxRecords), ledgerOps) && L.Valid(Activity())
    }

    ghost predicate OutboxFollows()
      reads `pending, `acknowledged, `lastError, `lastUploadAt, `outboxOps
    {
      && IncidentOutbox() == O.Run(O.EMPTY, outboxOps) && O.Drawn(O.EMPTY, outboxOps)
      && O.Valid(IncidentOutbox())
    }

    /** Ledger and outbox are where their histories lead. */
    ghost predicate Valid()
      reads this
    {
      LedgerFollows() && OutboxFollows()
    }

    /** Where one more operation leads. */
    lemma ExtendLedger(op: L.Op)
      requires LedgerFollows()
      ensures L.ApplyAll(L.Ledger(1, [], maxRecords), ledgerOps + [op]) == L.Apply(Activity(), op)
      ensures L.Valid(L.Apply(Activity(), op))
    {
      assert Init(ledgerOps + [op]) == ledgerOps;
      L.ApplyKeepsValid(Activity(), op);
    }

    lemma ExtendOutbox(op: O.Op)
      requires OutboxFollows() && (op.Enqueue? ==> O.Fresh(pending, op.envelope, op.uuid))
      ensures O.Run(O.EMPTY, outboxOps + [op]) == O.Apply(IncidentOutbox(), op)
      ensures O.Drawn(O.EMPTY, outboxOps + [op]) && O.Valid(O.Apply(IncidentOutbox(), op))
      ensures O.DistinctPairs(pending) && (op.Enqueue? ==> op.envelope.revision != 0) ==>
        O.DistinctPairs(O.Apply(IncidentOutbox(), op).pending)
    {
      assert Init(outboxOps + [op]) == outboxOps;
      O.DrawnPrefix(O.EMPTY, outboxOps + [op]);
      O.ApplyKeepsValid(IncidentOutbox(), op);
    }

    constructor (maxRecords: nat)
      ensures Valid() && Activity() == L.Ledger(1, [], maxRecords) && IncidentOutbox() == O.EMPTY
      ensures ledgerOps == [] && outboxOps == []
    {
      ledgerOps, outboxOps := [], [];
      nextSequence, records, this.maxRecords := 1, [], maxRecords;
      pending, acknowledged, lastError, lastUploadAt := [], map[], None, None;
    }

    /** The records of `all` that are retained, oldest kept position first. */
    method RetainRecords(all: seq<L.Record>, cutoff: int) returns (kept: seq<L.Record>)
      ensures kept == L.Take(L.Retained(all, cutoff), maxRecords)
    {
      kept := [];
      var i := |all|;
      while i > 0
        invariant 0 <= i <= |all|
        invariant kept == L.Retained(all[i..], cutoff)
      {
        i := i - 1;
        assert all[i..][1..] == all[i + 1..];
        if L.IsRetained(all[i], cutoff) {
          kept := [all[i]] + kept;
        }
      }
      assert all[0..] == all;
      if |kept| > maxRecords {
        kept := kept[..maxRecords];
      }
    }

    /** Appends a record under the next number and, in the same write, queues its envelope. */
    method AppendActivity(record: L.Record, cutoff: int, envelope: Option<O.Envelope>, uuid: string, now: int,
                          saved: bool)
      returns (status: Status)
      requires Valid()
      requires envelope.Some? ==> O.Fresh(pending, envelope.value, uuid)
      modifies this
      ensures Valid()
      ensures old(O.DistinctPairs(pending)) && (envelope.Some? ==> envelope.value.revision != 0) ==>
        O.DistinctPairs(pending)
      ensures status.MissingIncidentId? <==> envelope.Some? && envelope.value.incidentId == ""
      ensures status.Done? ==>
        && saved
        && ledgerOps == old(ledgerOps) + [L.Append(record, cutoff)]
        && outboxOps == old(outboxOps) + (if envelope.None? then [] else [O.Enqueue(envelope.value, uuid, now)])
        && Activity() == L.DoAppend(old(Activity()), record, cutoff)
        && IncidentOutbox() == if envelope.None? then old(IncidentOutbox())
                               else O.Queue(old(IncidentOutbox()), envelope.value, uuid, now)
      ensures status.NotSaved? ==> !saved && Activity() == old(Activity()) && IncidentOutbox() == old(IncidentOutbox())
      ensures status.NotSaved? ==> ledgerOps == old(ledgerOps) && outboxOps == old(outboxOps)
      ensures status.MissingIncidentId? ==>
        && ledgerOps == old(ledgerOps) + [L.Append(record, cutoff)] && outboxOps == old(outboxOps)
        && Activity() == L.DoAppend(old(Activity()), record, cutoff) && IncidentOutbox() == old(IncidentOutbox())
    {
      hide O.Run, O.Drawn, O.Valid, O.DistinctPairs, O.Queue, O.Fresh, L.Valid, L.ApplyAll, L.DoAppend;
      ExtendLedger(L.Append(record, cutoff));
      if envelope.Some? {
        ExtendOutbox(O.Enqueue(envelope.value, uuid, now));
      }
      status := TryAppend(record, cutoff, envelope, uuid, now, saved);
      if !status.NotSaved? {
        ledgerOps := ledgerOps + [L.Append(record, cutoff)];
      }
      if status.Done? && envelope.Some? {
        outboxOps := outboxOps + [O.Enqueue(envelope.value, uuid, now)];
      }
    }

    method TryAppend(record: L.Record, cutoff: int, envelope: Option<O.Envelope>, uuid: string, now: int, saved: bool)
      returns (status: Status)
      requires envelope.Some? ==> O.Valid(IncidentOutbox()) && O.Fresh(pending, envelope.value, uuid)
      modifies `nextSequence, `records, `pending, `lastError
      ensures status.MissingIncidentId? <==> envelope.Some? && envelope.value.incidentId == ""
      ensures status.Done? ==> saved
      ensures status.NotSaved? ==> !saved
      ensures Activity() == if status.NotSaved? then old(Activity()) else L.DoAppend(old(Activity()), record, cutoff)
      ensures IncidentOutbox() ==
        if status.Done? &&
          envelope.Some? then O.Queue(old(IncidentOutbox()), envelope.value, uuid, now) else old(IncidentOutbox())
    {
      hide O.Queue, L.DoAppend, O.Valid, O.Fresh, O.DistinctPairs, O.AlreadyPending;
      var sequenceBefore, recordsBefore, pendingBefore, errorBefore := nextSequence, records, pending, lastError;
      PutRecord(record, cutoff);
      if envelope.Some? {
        if envelope.value.incidentId == "" {
          return MissingIncidentId;
        }
        QueueInState(envelope.value, uuid, now);
      }
      if !saved {
        nextSequence, records, pending, lastError := sequenceBefore, recordsBefore, pendingBefore, errorBefore;
        return NotSaved;
      }
      return Done;
    }

    /** Puts a record under the next number in front of the retained ones. */
    method PutRecord(record: L.Record, cutoff: int)
      modifies `nextSequence, `records
      ensures Activity() == L.DoAppend(old(Activity()), record, cutoff)
    {
      var next := record.(sequence := nextSequence);
      nextSequence := nextSequence + 1;
      records := RetainRecords([next] + records, cutoff);
    }

    /**
      Queues an envelope unless an entry for it is already pending; the oldest entries beyond the bound are dropped.
     */
    method QueueInState(envelope: O.Envelope, uuid: string, now: int)
      requires O.Valid(IncidentOutbox()) && O.Fresh(pending, envelope, uuid)
      modifies `pending, `lastError
      ensures IncidentOutbox() == O.Queue(old(IncidentOutbox()), envelope, uuid, now)
      ensures O.Valid(IncidentOutbox())
      ensures envelope.revision != 0 && old(O.DistinctPairs(pending)) ==> O.DistinctPairs(pending)
      ensures envelope.revision != 0 || envelope.id != "" ==> O.AlreadyPending(pending, envelope)
    {
      O.QueueKeepsValid(IncidentOutbox(), envelope, uuid, now);
      var i := 0;
      while i < |pending|
        invariant 0 <= i <= |pending|
        invariant forall j | 0 <= j < i :: !O.Carries(pending[j], envelope)
      {
        if O.Carries(pending[i], envelope) {
          return;
        }
        i := i + 1;
      }
      var all := pending + [O.NewEntry(envelope, uuid, now)];
      if |all| > O.CAPACITY {
        all := all[|all| - O.CAPACITY..];
      }
      pending := all;
      lastError := None;
    }

    /** Prunes, in a write of its own, and then overlays a record with a patch, but for its id and number. */
    method UpdateActivity(id: string, patch: L.Patch, now: int, cutoff: int, pruneSaved: bool, saved: bool)
      returns (status: Status, found: bool)
      requires Valid()
      modifies `records, `ledgerOps
      ensures Valid() && !status.MissingIncidentId?
      ensures status.Done? ==>
        && Activity() == L.DoUpdate(old(Activity()), id, patch, now, cutoff)
        && ledgerOps == old(ledgerOps) + [L.Update(id, patch, now, cutoff)]
      ensures status.Done? ==> (found <==> exists r :: r in L.DoPrune(old(Activity()), cutoff).records && r.id == id)
      ensures status.NotSaved? ==>
        || (!pruneSaved && Activity() == old(Activity()) && ledgerOps == old(ledgerOps))
        || (&& !saved && Activity() == L.DoPrune(old(Activity()), cutoff)
            && ledgerOps == old(ledgerOps) + [L.Prune(cutoff)])
    {
      ExtendLedger(L.Update(id, patch, now, cutoff));
      ExtendLedger(L.Prune(cutoff));
      ghost var pruned;
      status, found, pruned := TryUpdate(id, patch, now, cutoff, pruneSaved, saved);
      if status.Done? {
        ledgerOps := ledgerOps + [L.Update(id, patch, now, cutoff)];
      } else if pruned {
        ledgerOps := ledgerOps + [L.Prune(cutoff)];
      }
    }

    method TryUpdate(id: string, patch: L.Patch, now: int, cutoff: int, pruneSaved: bool, saved: bool)
      returns (status: Status, found: bool, ghost pruned: bool)
      modifies `records
      ensures !status.MissingIncidentId?
      ensures status.Done? ==> Activity() == L.DoUpdate(old(Activity()), id, patch, now, cutoff)
      ensures status.Done? ==> (found <==> exists r :: r in L.DoPrune(old(Activity()), cutoff).records && r.id == id)
      ensures status.NotSaved? ==>
        if pruned then !saved && Activity() == L.DoPrune(old(Activity()), cutoff)
        else !pruneSaved && Activity() == old(Activity())
    {
      status := StorePruned(cutoff, pruneSaved);
      found, pruned := false, status.Done?;
      hide L.DoPrune;
      if status.NotSaved? {
        return;
      }
      var before := records;
      var i := L.IndexOf(records, id);
      if i == |records| {
        return;
      }
      found := true;
      assert records[i] in records;
      records := records[i := L.Patched(records[i], patch, now)];
      if !saved {
        records := before;
        status := NotSaved;
      }
    }

    method PruneActivity(cutoff: int, saved: bool) returns (status: Status)
      requires Valid()
      modifies `records, `ledgerOps
      ensures Valid() && !status.MissingIncidentId?
      ensures status.Done? ==>
        Activity() == L.DoPrune(old(Activity()), cutoff) && ledgerOps == old(ledgerOps) + [L.Prune(cutoff)]
      ensures status.NotSaved? ==> !saved && Activity() == old(Activity()) && ledgerOps == old(ledgerOps)
    {
      ExtendLedger(L.Prune(cutoff));
      hide OutboxFollows, L.ApplyAll, L.Valid;
      status := StorePruned(cutoff, saved);
      if status.Done? {
        ledgerOps := ledgerOps + [L.Prune(cutoff)];
      }
    }

    /** Stores the retained records, unless they are all there are. */
    method StorePruned(cutoff: int, saved: bool) returns (status: Status)
      modifies `records
      ensures !status.MissingIncidentId?
      ensures status.Done? ==> Activity() == L.DoPrune(old(Activity()), cutoff)
      ensures status.NotSaved? ==> !saved && Activity() == old(Activity())
    {
      var retained := RetainRecords(records, cutoff);
      if retained == records {
        return Done;
      }
      if !saved {
        return NotSaved;
      }
      records := retained;
      return Done;
    }

    /** One pass over the list: requested entries become receipts, the others remain in order. */
    method SplitPending(requested: set<string>, now: int)
      returns (remaining: seq<O.Entry>, receipts: map<string, O.Receipt>, count: nat)
      ensures remaining == O.Kept(pending, requested)
      ensures receipts == O.WithReceipts(acknowledged, O.Taken(pending, requested), now)
      ensures count == |O.Taken(pending, requested)|
    {
      var i := 0;
      remaining, receipts, count := [], acknowledged, 0;
      while i < |pending|
        invariant 0 <= i <= |pending|
        invariant remaining == O.Kept(pending[..i], requested)
        invariant receipts == O.WithReceipts(acknowledged, O.Taken(pending[..i], requested), now)
        invariant count == |O.Taken(pending[..i], requested)|
      {
        var entry := pending[i];
        assert Init(pending[..i + 1]) == pending[..i];
        if O.IsRequested(entry, requested) {
          assert Init(O.Taken(pending[..i], requested) + [entry]) == O.Taken(pending[..i], requested);
          receipts := receipts[entry.id := O.Receipt(now, entry.envelope.incidentId, entry.envelope.revision)];
          count := count + 1;
        } else {
          remaining := remaining + [entry];
        }
        i := i + 1;
      }
      assert pending[..i] == pending;
    }

    /** Moves the requested entries to the receipts. */
    method AcknowledgeIncidentEnvelopes(ids: set<string>, now: int, saved: bool) returns (status: Status, count: nat)
      requires Valid()
      modifies `pending, `acknowledged, `lastUploadAt, `outboxOps
      ensures Valid() && !status.MissingIncidentId?
      ensures status.Done? ==>
        && IncidentOutbox() == O.Acknowledge(old(IncidentOutbox()), ids, now)
        && outboxOps == old(outboxOps) + [O.Ack(ids, now)]
        && count == |old(pending)| - |pending|
      ensures status.NotSaved? ==> !saved && IncidentOutbox() == old(IncidentOutbox()) && outboxOps == old(outboxOps)
      ensures old(O.DistinctPairs(pending)) ==> O.DistinctPairs(pending)
    {
      hide O.Run, O.Drawn, O.Valid, O.DistinctPairs, O.Acknowledge, L.Valid, L.ApplyAll;
      ExtendOutbox(O.Ack(ids, now));
      status, count := TryAcknowledge(ids, now, saved);
      if status.Done? {
        outboxOps := outboxOps + [O.Ack(ids, now)];
      }
    }

    method TryAcknowledge(ids: set<string>, now: int, saved: bool) returns (status: Status, count: nat)
      modifies `pending, `acknowledged, `lastUploadAt
      ensures !status.MissingIncidentId?
      ensures status.Done? ==>
        IncidentOutbox() == O.Acknowledge(old(IncidentOutbox()), ids, now) && count == |old(pending)| - |pending|
      ensures status.NotSaved? ==> !saved && IncidentOutbox() == old(IncidentOutbox())
    {
      var requested := ids - {""};
      if requested == {} {
        return Done, 0;
      }
      O.SplitIsExact(pending, requested);
      hide O.Kept, O.Taken, O.WithReceipts, O.IsRequested;
      var pendingBefore, receiptsBefore, uploadBefore := pending, acknowledged, lastUploadAt;
      pending, acknowledged, count := SplitPending(requested, now);
      lastUploadAt := Some(now);
      if !saved {
        pending, acknowledged, lastUploadAt := pendingBefore, receiptsBefore, uploadBefore;
        return NotSaved, 0;
      }
      return Done, count;
    }

    method MarkIncidentUploadError(message: string, saved: bool) returns (status: Status)
      requires Valid()
      modifies `pending, `lastError, `outboxOps
      ensures Valid() && !status.MissingIncidentId?
      ensures status.Done? ==>
        && IncidentOutbox() == O.UploadFailed(old(IncidentOutbox()), message)
        && outboxOps == old(outboxOps) + [O.Failed(message)]
      ensures status.NotSaved? ==> !saved && IncidentOutbox() == old(IncidentOutbox()) && outboxOps == old(outboxOps)
    {
      ExtendOutbox(O.Failed(message));
      if !saved {
        return NotSaved;
      }
      CountAttempts();
      lastError := Some(message);
      outboxOps := outboxOps + [O.Failed(message)];
      return Done;
    }

    method CountAttempts()
      modifies `pending
      ensures pending == O.RetriedAll(old(pending))
    {
      var i, bumped := 0, [];
      while i < |pending|
        invariant 0 <= i <= |pending|
        invariant bumped == O.RetriedAll(pending[..i])
      {
        assert Init(pending[..i + 1]) == pending[..i];
        bumped := bumped + [O.Retried(pending[i])];
        i := i + 1;
      }
      assert pending[..i] == pending;
      pending := bumped;
    }
  }
}
