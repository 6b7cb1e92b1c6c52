/** The electric usage tracker as an object that changes its entries and pending segments in place. */
module UsageTracker {
  import opened Prelude
  import opened E = ElectricUsage

  datatype Row = Row(key: Key, tally: Tally, retired: bool)

  class ElectricUsageTracker {
    const maxTrackedEntities: nat
    var entities: map<string, Entry>
    var pending: seq<Entry>
    var nextEpoch: nat
    /** Final counts of the segments dropped after an acknowledgement. */
    ghost var archived: map<Key, Tally>
    /** Every call so far that may have changed something. */
    ghost var trace: seq<Event>

    ghost function View(): State
      reads this
    {
      State(entities, pending, nextEpoch, archived)
    }

    ghost predicate Sound()
      reads this
    {
      E.Valid(View())
    }

    /** The object is where its history leads. */
    ghost predicate Valid()
      reads this
    {
      Sound() && View() == Run(INITIAL, trace, maxTrackedEntities)
    }

    constructor (maxTrackedEntities: nat)
      ensures Valid() && trace == [] && View() == INITIAL
    {
      hide E.Valid, Run;
      InitialIsValid(if maxTrackedEntities < 1 then 200 else maxTrackedEntities);
      trace := [];
      this.maxTrackedEntities := if maxTrackedEntities < 1 then 200 else maxTrackedEntities;
      entities, pending, nextEpoch, archived := map[], [], 0, map[];
    }

    lemma Extend(event: Event)
      ensures Run(INITIAL, trace + [event], maxTrackedEntities) ==
        Step(Run(INITIAL, trace, maxTrackedEntities), event, maxTrackedEntities)
    {
      hide Step;
      assert Init(trace + [event]) == trace;
    }

    /** Adds the time since an entry was last seen to one of its counters. */
    method AccrueEntry(entry: Entry, now: int) returns (counted: Entry)
      ensures counted == Accrue(entry, now)
    {
      var seconds := (now - entry.lastSeenAt) / 1000;
      if seconds > MAX_INTERVAL_SECONDS {
        seconds := MAX_INTERVAL_SECONDS;
      }
      if seconds < 0 {
        seconds := 0;
      }
      var tally := entry.tally;
      if entry.lastWasKnown && seconds <= UNKNOWN_GAP_SECONDS {
        if entry.lastWasOn {
          tally := tally.(on := tally.on + seconds);
        } else {
          tally := tally.(off := tally.off + seconds);
        }
      } else {
        tally := tally.(unknown := tally.unknown + seconds);
      }
      counted := entry.(tally := tally);
    }

    method CreateEntry(d: Descriptor, now: int) returns (entry: Entry)
      modifies `nextEpoch
      ensures entry == Create(d, now, old(nextEpoch)) && nextEpoch == old(nextEpoch) + 2
      ensures old(Sound()) ==> KeyOf(d.entityId, entry) !in Segments(View())
    {
      if Sound() {
        NewKey(View(), d.entityId, Create(d, now, nextEpoch));
      }
      hide Segments, E.Valid;
      entry := Entry(d.entityId, d.deviceId, nextEpoch, nextEpoch + 1, d.areaId, Tally(0, 0, 0), now, d.isOn, d.known,
                     false, true);
      nextEpoch := nextEpoch + 2;
    }

    /** Closes the entry of a light that changed area and begins another segment for it. */
    method RollAssignment(entry: Entry, d: Descriptor, now: int) returns (next: Entry)
      requires d.entityId in entities && entities[d.entityId] == entry
      modifies `entities, `pending, `nextEpoch
      ensures next == Create(d, now, old(nextEpoch))
      ensures View() == Begun(Closed(old(View()), d.entityId, Retire(entry, now)), d.entityId, next)
    {
      var counted := AccrueEntry(entry, now);
      pending := pending + [counted.(retired := true, dirty := true)];
      next := CreateEntry(d, now);
      hide Accrue;
      Rebound(entities, d.entityId, next);
      entities := entities[d.entityId := next];
    }

    lemma Rebound(m: map<string, Entry>, id: string, entry: Entry)
      ensures (m - {id})[id := entry] == m[id := entry]
    {}

    lemma ReboundTwice(m: map<string, Entry>, id: string, first: Entry, entry: Entry)
      ensures m[id := first][id := entry] == m[id := entry]
    {}

    /**
      Notes what a sighting says of an entity that is already tracked: a new segment in another area, or more time
      in the same one.
     */
    method SightAgain(d: Descriptor, now: int, adopt: bool)
      requires d.entityId in entities
      modifies `entities, `pending, `nextEpoch
      ensures View() == See(old(View()), d, now, adopt)
    {
      hide Accrue, Retire, Create;
      var entry := entities[d.entityId];
      ghost var before := entities;
      if entry.areaId != d.areaId && !entry.retired {
        entry := RollAssignment(entry, d, now);
        ReboundTwice(before - {d.entityId}, d.entityId, entry, Noted(entry, d, now, adopt));
      } else {
        entry := AccrueEntry(entry, now);
      }
      entry := entry.(deviceId := if adopt then d.deviceId else entry.deviceId, areaId := d.areaId, lastSeenAt := now,
                      lastWasOn := d.isOn, lastWasKnown := d.known, retired := false, dirty := true);
      entities := entities[d.entityId := entry];
    }

    /** The first sighting of an entity. */
    method SightNew(d: Descriptor, now: int)
      requires d.entityId !in entities
      modifies `entities, `nextEpoch
      ensures View() == Begun(old(View()), d.entityId, Create(d, now, old(nextEpoch)))
    {
      hide Create;
      var created := CreateEntry(d, now);
      entities := entities[d.entityId := created];
    }

    method Sight(d: Descriptor, now: int, adopt: bool)
      requires Sound()
      modifies `entities, `pending, `nextEpoch
      ensures Sound() && View() == See(old(View()), d, now, adopt)
    {
      SeeIsValid(View(), d, now, adopt);
      hide E.Valid, Begun, Closed, Noted, Create, Retire, Accrue;
      if d.entityId in entities {
        SightAgain(d, now, adopt);
      } else {
        SightNew(d, now);
      }
    }

    method Observe(d: Descriptor, now: int)
      requires Valid()
      modifies `entities, `pending, `nextEpoch, `trace
      ensures Valid() && trace == old(trace) + [Event.Observe(d, now)]
      ensures View() == Step(old(View()), Event.Observe(d, now), maxTrackedEntities)
    {
      hide E.Valid, See, Run;
      Extend(Event.Observe(d, now));
      trace := trace + [Event.Observe(d, now)];
      if d.entityId != "" {
        Sight(d, now, false);
      }
    }

    /** Retires one live entry if it belongs to the device and was not seen. */
    method RetireEntry(id: string, deviceId: string, seen: set<string>, now: int)
      requires id in entities
      modifies `entities
      ensures entities == old(entities)[id := RetiredUnless(id, old(entities)[id], deviceId, seen, now)]
    {
      var entry := entities[id];
      if entry.deviceId == deviceId && id !in seen && !entry.retired {
        var counted := AccrueEntry(entry, now);
        entities := entities[id := counted.(retired := true, dirty := true)];
      }
    }

    /** Retires the live entries of a device that `seen` does not contain. */
    method RetireUnseenEntries(deviceId: string, seen: set<string>, now: int)
      modifies `entities
      ensures entities == RetireUnseen(old(View()), deviceId, seen, now).entities
    {
      hide RetiredUnless;
      ghost var before := entities;
      var todo := entities.Keys;
      while todo != {}
        invariant todo <= before.Keys && entities.Keys == before.Keys
        invariant forall id | id in before ::
          entities[id] == if id in todo then before[id] else RetiredUnless(id, before[id], deviceId, seen, now)
        decreases todo
      {
        var id :| id in todo;
        RetireEntry(id, deviceId, seen, now);
        todo := todo - {id};
      }
    }

    method RetireEntries(deviceId: string, seen: set<string>, now: int)
      requires Sound()
      modifies `entities
      ensures Sound() && View() == RetireUnseen(old(View()), deviceId, seen, now)
    {
      RetireUnseenIsValid(View(), deviceId, seen, now);
      RetireUnseenEntries(deviceId, seen, now);
    }

    /** Looks at every light of a device, within the limit of tracked entities. */
    method SightEach(descriptors: seq<Descriptor>, now: int) returns (seen: set<string>)
      requires Sound()
      modifies `entities, `pending, `nextEpoch
      ensures Sound() && View() == SeeAll(old(View()), descriptors, now, maxTrackedEntities, |descriptors|)
      ensures seen == Tracked(View(), descriptors)
    {
      hide E.Valid, See, Tracked;
      seen := {};
      var i := 0;
      NothingTracked(View());
      while i < |descriptors|
        invariant 0 <= i <= |descriptors| && Sound()
        invariant View() == SeeAll(old(View()), descriptors, now, maxTrackedEntities, i)
        invariant seen == Tracked(View(), descriptors[..i])
        invariant archived == old(archived)
      {
        var d := descriptors[i];
        assert descriptors[..i + 1] == descriptors[..i] + [d];
        TrackedGrows(View(), descriptors[..i], d, now, maxTrackedEntities);
        if d.entityId in entities || |entities| < maxTrackedEntities {
          seen := seen + {d.entityId};
          Sight(d, now, true);
        }
        i := i + 1;
      }
      assert descriptors[..i] == descriptors;
    }

    /** Every light of a device has been looked at; lights it no longer has are retired. */
    method OnDeviceChanged(deviceId: string, descriptors: seq<Descriptor>, now: int)
      requires Valid()
      modifies `entities, `pending, `nextEpoch, `trace
      ensures Valid() && trace == old(trace) + [Change(deviceId, descriptors, now)]
      ensures View() == DeviceChanged(old(View()), deviceId, descriptors, now, maxTrackedEntities)
    {
      hide E.Valid, SeeAll, Tracked, RetireUnseen, Run;
      Extend(Change(deviceId, descriptors, now));
      trace := trace + [Change(deviceId, descriptors, now)];
      var seen := SightEach(descriptors, now);
      RetireEntries(deviceId, seen, now);
    }

    lemma NothingTracked(s: State)
      ensures Tracked(s, []) == {}
    {}

    lemma TrackedSnoc(s: State, before: seq<Descriptor>, d: Descriptor)
      ensures Tracked(s, before + [d]) == Tracked(s, before) + if d.entityId in s.entities then {d.entityId} else {}
    {
      assert (before + [d])[|before|] == d;
    }

    lemma TrackedSame(s: State, s': State, before: seq<Descriptor>, id: string)
      requires s'.entities.Keys == s.entities.Keys + {id}
      ensures Tracked(s', before) + {id} == Tracked(s, before) + {id}
    {
      assert forall other | other != id :: other in s'.entities.Keys <==> other in s.entities.Keys;
    }

    /** Which of the descriptors looked at so far are tracked after one more. */
    lemma TrackedGrows(s: State, before: seq<Descriptor>, d: Descriptor, now: int, limit: nat)
      ensures Tracked(SeeWithin(s, d, now, limit), before + [d]) ==
        if d.entityId in s.entities || |s.entities| < limit then Tracked(s, before) + {d.entityId}
        else Tracked(s, before)
    {
      hide See, SightingOf, Tracked;
      var s' := SeeWithin(s, d, now, limit);
      TrackedSnoc(s', before, d);
      if d.entityId in s.entities || |s.entities| < limit {
        SeeEntities(s, d, now, true);
        TrackedSame(s, s', before, d.entityId);
      } else {
        assert s' == s;
      }
    }

    method RetireDevice(deviceId: string, now: int)
      requires Valid()
      modifies `entities, `pending, `trace
      ensures Valid() && trace == old(trace) + [Remove(deviceId, now)]
      ensures View() == E.RetireDevice(old(View()), deviceId, now)
    {
      hide E.Valid, E.RetireDevice, Run;
      Extend(Remove(deviceId, now));
      trace := trace + [Remove(deviceId, now)];
      RetireAll(deviceId, now);
    }

    /** Retires a device's live entries, and then goes through the closed ones. */
    method RetireAll(deviceId: string, now: int)
      requires Sound()
      modifies `entities, `pending
      ensures Sound() && View() == E.RetireDevice(old(View()), deviceId, now)
    {
      RetirePendingIsIdle(pending, deviceId);
      RetireEntries(deviceId, {}, now);
      hide E.Valid, RetireUnseen;
      pending := SweptPending(deviceId);
    }

    method SweptPending(deviceId: string) returns (swept: seq<Entry>)
      ensures swept == RetirePending(pending, deviceId)
    {
      var i := 0;
      swept := [];
      while i < |pending|
        invariant 0 <= i <= |pending|
        invariant swept == RetirePending(pending[..i], deviceId)
      {
        var entry := pending[i];
        assert Init(pending[..i + 1]) == pending[..i];
        if entry.deviceId == deviceId && !entry.retired {
          entry := entry.(retired := true, dirty := true);
        }
        swept := swept + [entry];
        i := i + 1;
      }
      assert pending[..i] == pending;
    }

    /**
      The rows to upload, pending segments first, then live ones in the given enumeration order; None if there are
      none.
     */
    method GetPayload(order: seq<string>) returns (rows: Option<seq<Row>>)
      requires Valid() && NoDuplicates(order) && (forall id :: id in order <==> id in entities)
      modifies `trace
      ensures Valid() && trace == old(trace) + [Upload]
      ensures rows.None? <==> Payload(View()) == map[]
      ensures rows.Some? ==> TableOf(rows.value) == Payload(View())
    {
      hide E.Valid, Run, Payload, Step, TableOf;
      rows := Rows(order);
      Extend(Upload);
      UploadIsIdle(Run(INITIAL, trace, maxTrackedEntities), maxTrackedEntities);
      trace := trace + [Upload];
    }

    method Rows(order: seq<string>) returns (rows: Option<seq<Row>>)
      requires NoDuplicates(order) && (forall id :: id in order <==> id in entities)
      ensures rows.None? <==> Payload(View()) == map[]
      ensures rows.Some? ==> TableOf(rows.value) == Payload(View())
    {
      var found := PendingRows();
      found := LiveRows(order, found);
      assert Restrict(order) == entities;
      NoRowsNoTable(found);
      rows := if found == [] then None else Some(found);
    }

    method PendingRows() returns (found: seq<Row>)
      ensures TableOf(found) == PendingMap(DirtyPending(pending))
    {
      hide TableOf, PendingMap, DirtyPending;
      var i := 0;
      found := [];
      NoRows();
      while i < |pending|
        invariant 0 <= i <= |pending|
        invariant TableOf(found) == PendingMap(DirtyPending(pending[..i]))
      {
        var entry := pending[i];
        assert pending[..i + 1] == pending[..i] + [entry];
        DirtySnoc(pending[..i], entry);
        if entry.dirty {
          var row := Row(KeyOf(entry.entityId, entry), entry.tally, entry.retired);
          TableSnoc(found, row);
          found := found + [row];
        }
        i := i + 1;
      }
      assert pending[..i] == pending;
    }

    method LiveRows(order: seq<string>, first: seq<Row>) returns (found: seq<Row>)
      requires NoDuplicates(order) && (forall id | id in order :: id in entities)
      ensures TableOf(found) == TableOf(first) + LiveTable(order)
    {
      hide LiveTable, TableOf;
      var i := 0;
      found := first;
      NothingRestricted();
      while i < |order|
        invariant 0 <= i <= |order|
        invariant TableOf(found) == TableOf(first) + LiveTable(order[..i])
      {
        var id := order[i];
        assert id in order;
        var entry := entities[id];
        assert order[..i + 1] == order[..i] + [id];
        assert id !in order[..i];
        LiveTableSnoc(order[..i], id);
        if entry.dirty {
          var row := Row(KeyOf(id, entry), entry.tally, entry.retired);
          TableSnoc(found, row);
          found := found + [row];
        }
        i := i + 1;
      }
      assert order[..i] == order;
    }

    lemma NothingRestricted()
      ensures LiveTable([]) == map[]
    {}

    /** The rows of the changed live entries named by a list. */
    ghost function LiveTable(ids: seq<string>): map<Key, Tally>
      reads this
    {
      LiveMap(DirtyOf(Restrict(ids)))
    }

    lemma LiveTableSnoc(ids: seq<string>, id: string)
      requires id in entities && id !in ids
      ensures LiveTable(ids + [id]) ==
        if entities[id].dirty then LiveTable(ids)[KeyOf(id, entities[id]) := entities[id].tally] else LiveTable(ids)
    {
      RestrictSnoc(ids, id);
      hide Restrict, DirtyOf, LiveMap;
      if entities[id].dirty {
        LiveUpdate(DirtyOf(Restrict(ids)), id, entities[id]);
      }
    }

    /** The live entries named by a list. */
    ghost function Restrict(ids: seq<string>): map<string, Entry>
      reads this
    {
      map id | id in entities && id in ids :: entities[id]
    }

    lemma RestrictSnoc(ids: seq<string>, id: string)
      requires id in entities && id !in ids
      ensures Restrict(ids + [id]) == Restrict(ids)[id := entities[id]]
      ensures DirtyOf(Restrict(ids + [id])) ==
        if entities[id].dirty then DirtyOf(Restrict(ids))[id := entities[id]] else DirtyOf(Restrict(ids))
      ensures id !in DirtyOf(Restrict(ids))
    {
      assert forall x :: x in ids + [id] <==> x in ids || x == id;
    }

    /** Drops the acknowledged segments that are closed; live ones only stop being dirty. */
    method AcknowledgeUploaded(rows: seq<Row>)
      requires Valid()
      modifies `entities, `pending, `archived, `trace
      ensures Valid() && trace == old(trace) + [Ack(TableOf(rows).Keys)]
      ensures View() == Acknowledge(old(View()), TableOf(rows).Keys)
    {
      Extend(Ack(TableOf(rows).Keys));
      AcknowledgeKeepsSegments(View(), TableOf(rows).Keys);
      hide E.Valid, Acknowledge, Run;
      trace := trace + [Ack(TableOf(rows).Keys)];
      var keys := KeysOf(rows);
      DropAcknowledged(keys);
    }

    method DropAcknowledged(keys: set<Key>)
      modifies `entities, `pending, `archived
      ensures View() == Acknowledge(old(View()), keys)
    {
      hide PendingMap, LiveMap, KeptEntities, DroppedEntities, KeptPending, DroppedPending;
      archived := archived + PendingMap(DroppedPending(pending, keys)) + LiveMap(DroppedEntities(entities, keys));
      pending := UnacknowledgedPending(keys);
      SweepEntities(keys);
    }

    method UnacknowledgedPending(keys: set<Key>) returns (kept: seq<Entry>)
      ensures kept == KeptPending(pending, keys)
    {
      var i := 0;
      kept := [];
      while i < |pending|
        invariant 0 <= i <= |pending|
        invariant kept == KeptPending(pending[..i], keys)
      {
        var entry := pending[i];
        assert Init(pending[..i + 1]) == pending[..i];
        if !(entry.dirty && KeyOf(entry.entityId, entry) in keys) {
          kept := kept + [entry];
        }
        i := i + 1;
      }
      assert pending[..i] == pending;
    }

    method SweepEntities(keys: set<Key>)
      modifies `entities
      ensures entities == KeptEntities(old(entities), keys)
    {
      ghost var before := entities;
      var todo := entities.Keys;
      while todo != {}
        invariant todo <= before.Keys && todo <= entities.Keys
        invariant forall id :: id in entities <==> id in (if id in todo then before else KeptEntities(before, keys))
        invariant forall id | id in entities ::
          entities[id] == if id in todo then before[id] else KeptEntities(before, keys)[id]
        decreases todo
      {
        var id :| id in todo;
        var entry := entities[id];
        if entry.dirty && KeyOf(id, entry) in keys {
          if entry.retired {
            entities := entities - {id};
          } else {
            entities := entities[id := entry.(dirty := false)];
          }
        }
        todo := todo - {id};
      }
      assert entities == KeptEntities(before, keys);
    }
  }

  /** Rows as a table; a later row replaces an earlier one with the same key. */
  function TableOf(rows: seq<Row>): map<Key, Tally> {
    if rows == [] then map[] else TableOf(Init(rows))[Last(rows).key := Last(rows).tally]
  }

  lemma TableSnoc(rows: seq<Row>, row: Row)
    ensures TableOf(rows + [row]) == TableOf(rows)[row.key := row.tally]
  {
    assert Init(rows + [row]) == rows;
  }

  lemma DirtySnoc(pending: seq<Entry>, entry: Entry)
    ensures PendingMap(DirtyPending(pending + [entry])) ==
      if entry.dirty then PendingMap(DirtyPending(pending))[KeyOf(entry.entityId, entry) := entry.tally]
      else PendingMap(DirtyPending(pending))
  {
    assert Init(pending + [entry]) == pending;
    assert Init(DirtyPending(pending) + [entry]) == DirtyPending(pending);
  }

  lemma NoRows()
    ensures TableOf([]) == PendingMap(DirtyPending([]))
  {}

  function KeysOf(rows: seq<Row>): (keys: set<Key>)
    ensures keys == TableOf(rows).Keys
  {
    if rows == [] then {} else KeysOf(Init(rows)) + {Last(rows).key}
  }

  lemma NoRowsNoTable(rows: seq<Row>)
    ensures rows == [] <==> TableOf(rows) == map[]
  {
    if rows != [] {
      assert Last(rows).key in TableOf(rows);
    }
  }
}
