/**
  Electric usage accounting: seconds on, off and unknown are counted per light, split into segments when
  the light changes area, and uploaded cumulatively.  Times are integer milliseconds; random epochs are drawn
  from a counter.
 */
module ElectricUsage {
  import opened Prelude

  const MAX_INTERVAL_SECONDS := 24 * 60 * 60
  const UNKNOWN_GAP_SECONDS := 10 * 60

  datatype Descriptor = Descriptor(entityId: string, deviceId: string, areaId: string, known: bool, isOn: bool)

  datatype Tally = Tally(on: nat, off: nat, unknown: nat)

  /** Area "" is no area. */
  datatype Entry = Entry(
    entityId: string, deviceId: string, trackingEpoch: nat, assignmentEpoch: nat, areaId: string, tally: Tally,
    lastSeenAt: int, lastWasOn: bool, lastWasKnown: bool, retired: bool, dirty: bool)

  datatype Key = Key(entityId: string, trackingEpoch: nat, assignmentEpoch: nat)

  /** `archived` holds the final counts of the segments that were dropped after an acknowledgement. */
  datatype State = State(entities: map<string, Entry>, pending: seq<Entry>, nextEpoch: nat, archived: map<Key, Tally>)

  // ---------------------------------------------------------------- steps

  function Elapsed(last: int, now: int): nat {
    var seconds := (now - last) / 1000;
    var capped := if seconds > MAX_INTERVAL_SECONDS then MAX_INTERVAL_SECONDS else seconds;
    if capped < 0 then 0 else capped
  }

  function Add(a: Tally, b: Tally): Tally {
    Tally(a.on + b.on, a.off + b.off, a.unknown + b.unknown)
  }

  /** What an interval adds: to on or off if the state was known and the interval is short enough. */
  function Share(known: bool, isOn: bool, elapsed: nat): Tally {
    if known && elapsed <= UNKNOWN_GAP_SECONDS then
      if isOn then Tally(elapsed, 0, 0) else Tally(0, elapsed, 0)
    else Tally(0, 0, elapsed)
  }

  function Accrue(entry: Entry, now: int): Entry {
    entry.(tally := Add(entry.tally, Share(entry.lastWasKnown, entry.lastWasOn, Elapsed(entry.lastSeenAt, now))))
  }

  function Create(d: Descriptor, now: int, epoch: nat): Entry {
    Entry(d.entityId, d.deviceId, epoch, epoch + 1, d.areaId, Tally(0, 0, 0), now, d.isOn, d.known, false, true)
  }

  function Noted(entry: Entry, d: Descriptor, now: int, adopt: bool): Entry {
    entry.(deviceId := if adopt then d.deviceId else entry.deviceId, areaId := d.areaId, lastSeenAt := now,
           lastWasOn := d.isOn, lastWasKnown := d.known, retired := false, dirty := true)
  }

  function Retire(entry: Entry, now: int): Entry {
    Accrue(entry, now).(retired := true, dirty := true)
  }

  /** Changing area: the live segment is closed and another one begins under new epochs. */
  function Closed(s: State, id: string, closed: Entry): State {
    s.(entities := s.entities - {id}, pending := s.pending + [closed])
  }

  function Begun(s: State, id: string, entry: Entry): State {
    s.(entities := s.entities[id := entry], nextEpoch := s.nextEpoch + 2)
  }

  /** One sighting of an entity. */
  function See(s: State, d: Descriptor, now: int, adopt: bool): State {
    if d.entityId !in s.entities then
      Begun(s, d.entityId, Create(d, now, s.nextEpoch))
    else
      var entry := s.entities[d.entityId];
      if entry.areaId != d.areaId && !entry.retired then
        Begun(Closed(s, d.entityId, Retire(entry, now)), d.entityId, Noted(Create(d, now, s.nextEpoch), d, now, adopt))
      else s.(entities := s.entities[d.entityId := Noted(Accrue(entry, now), d, now, adopt)])
  }

  /** A sighting in a device change; a new entity beyond the limit is not tracked. */
  function SeeWithin(s: State, d: Descriptor, now: int, limit: nat): State {
    if d.entityId !in s.entities && |s.entities| >= limit then s else See(s, d, now, true)
  }

  /** The first `n` sightings of a device change. */
  function SeeAll(s: State, ds: seq<Descriptor>, now: int, limit: nat, n: nat): State
    requires n <= |ds|
  {
    if n == 0 then s else SeeWithin(SeeAll(s, ds, now, limit, n - 1), ds[n - 1], now, limit)
  }

  function Tracked(s: State, ds: seq<Descriptor>): set<string> {
    set d | d in ds && d.entityId in s.entities :: d.entityId
  }

  function RetiredUnless(id: string, entry: Entry, deviceId: string, seen: set<string>, now: int): Entry {
    if entry.deviceId == deviceId && id !in seen && !entry.retired then Retire(entry, now) else entry
  }

  function RetireUnseen(s: State, deviceId: string, seen: set<string>, now: int): State {
    s.(entities := map id | id in s.entities :: RetiredUnless(id, s.entities[id], deviceId, seen, now))
  }

  function DeviceChanged(s: State, deviceId: string, ds: seq<Descriptor>, now: int, limit: nat): State {
    var after := SeeAll(s, ds, now, limit, |ds|);
    RetireUnseen(after, deviceId, Tracked(after, ds), now)
  }

  function RetirePending(pending: seq<Entry>, deviceId: string): seq<Entry> {
    if pending == [] then []
    else
      var entry := Last(pending);
      RetirePending(Init(pending), deviceId) +
      [if entry.deviceId == deviceId && !entry.retired then entry.(retired := true, dirty := true) else entry]
  }

  function RetireDevice(s: State, deviceId: string, now: int): State {
    var after := RetireUnseen(s, deviceId, {}, now);
    after.(pending := RetirePending(after.pending, deviceId))
  }

  function KeyOf(id: string, entry: Entry): Key {
    Key(id, entry.trackingEpoch, entry.assignmentEpoch)
  }

  function PendingMap(pending: seq<Entry>): map<Key, Tally> {
    if pending == [] then map[]
    else PendingMap(Init(pending))[KeyOf(Last(pending).entityId, Last(pending)) := Last(pending).tally]
  }

  function LiveMap(entities: map<string, Entry>): map<Key, Tally> {
    map id | id in entities :: KeyOf(id, entities[id]) := entities[id].tally
  }

  function DirtyOf(entities: map<string, Entry>): map<string, Entry> {
    map id | id in entities && entities[id].dirty :: entities[id]
  }

  function DirtyPending(pending: seq<Entry>): seq<Entry> {
    if pending == [] then []
    else if Last(pending).dirty then DirtyPending(Init(pending)) + [Last(pending)]
    else DirtyPending(Init(pending))
  }

  /** The rows of an upload: every segment that changed since it was last acknowledged. */
  function Payload(s: State): map<Key, Tally> {
    PendingMap(DirtyPending(s.pending)) + LiveMap(DirtyOf(s.entities))
  }

  predicate IsAcknowledged(id: string, entry: Entry, keys: set<Key>) {
    entry.dirty && KeyOf(id, entry) in keys
  }

  function KeptPending(pending: seq<Entry>, keys: set<Key>): seq<Entry> {
    if pending == [] then []
    else if IsAcknowledged(Last(pending).entityId, Last(pending), keys) then KeptPending(Init(pending), keys)
    else KeptPending(Init(pending), keys) + [Last(pending)]
  }

  function DroppedPending(pending: seq<Entry>, keys: set<Key>): seq<Entry> {
    if pending == [] then []
    else if IsAcknowledged(Last(pending).entityId, Last(pending), keys) then
      DroppedPending(Init(pending), keys) + [Last(pending)]
    else DroppedPending(Init(pending), keys)
  }

  function KeptEntities(entities: map<string, Entry>, keys: set<Key>): map<string, Entry> {
    map id | id in entities && !(IsAcknowledged(id, entities[id], keys) && entities[id].retired) ::
      if IsAcknowledged(id, entities[id], keys) then entities[id].(dirty := false) else entities[id]
  }

  function DroppedEntities(entities: map<string, Entry>, keys: set<Key>): map<string, Entry> {
    map id | id in entities && IsAcknowledged(id, entities[id], keys) && entities[id].retired :: entities[id]
  }

  function Acknowledge(s: State, keys: set<Key>): State {
    s.(pending := KeptPending(s.pending, keys),
       entities := KeptEntities(s.entities, keys),
       archived := s.archived + PendingMap(DroppedPending(s.pending, keys))
                   + LiveMap(DroppedEntities(s.entities, keys)))
  }

  // ------------------------------------------------------------- segments

  /** Every segment ever counted, with its count: archived, pending and live. */
  function Segments(s: State): map<Key, Tally> {
    s.archived + PendingMap(s.pending) + LiveMap(s.entities)
  }

  ghost predicate DistinctPending(pending: seq<Entry>) {
    forall i, j | 0 <= i < j < |pending| ::
      KeyOf(pending[i].entityId, pending[i]) != KeyOf(pending[j].entityId, pending[j])
  }

  /** No key is in two of the three maps, and epochs to come are unused. */
  ghost predicate Apart(archived: map<Key, Tally>, pending: map<Key, Tally>, live: map<Key, Tally>, nextEpoch: nat) {
    && (forall k | k in archived :: k.assignmentEpoch < nextEpoch)
    && (forall k | k in pending :: k.assignmentEpoch < nextEpoch && k !in archived)
    && (forall k | k in live :: k.assignmentEpoch < nextEpoch && k !in archived && k !in pending)
  }

  ghost predicate AllClosed(pending: seq<Entry>) {
    forall i | 0 <= i < |pending| :: pending[i].retired && pending[i].dirty
  }

  lemma AppendClosed(pending: seq<Entry>, closed: Entry)
    requires AllClosed(pending) && closed.retired && closed.dirty
    ensures AllClosed(pending + [closed])
  {}

  /** Pending segments are closed, and no two segments share a key. */
  ghost predicate Valid(s: State) {
    && (forall id | id in s.entities :: s.entities[id].entityId == id)
    && AllClosed(s.pending)
    && DistinctPending(s.pending)
    && Apart(s.archived, PendingMap(s.pending), LiveMap(s.entities), s.nextEpoch)
  }

  lemma {:induction false} PendingKeys(pending: seq<Entry>, k: Key)
    ensures k in PendingMap(pending) <==> exists i :: 0 <= i < |pending| && KeyOf(pending[i].entityId, pending[i]) == k
    ensures DistinctPending(pending) ==>
      forall i | 0 <= i < |pending| && KeyOf(pending[i].entityId, pending[i]) == k ::
        PendingMap(pending)[k] == pending[i].tally
  {
    if pending == [] {
    } else {
      PendingKeys(Init(pending), k);
      assert forall i | 0 <= i < |pending| - 1 :: Init(pending)[i] == pending[i];
    }
  }

  lemma LiveKeys(entities: map<string, Entry>, k: Key)
    ensures k in LiveMap(entities) <==> k.entityId in entities && KeyOf(k.entityId, entities[k.entityId]) == k
    ensures k in LiveMap(entities) ==> LiveMap(entities)[k] == entities[k.entityId].tally
  {}

  lemma LiveUpdate(entities: map<string, Entry>, id: string, entry: Entry)
    requires id in entities ==> KeyOf(id, entry) == KeyOf(id, entities[id])
    ensures LiveMap(entities[id := entry]) == LiveMap(entities)[KeyOf(id, entry) := entry.tally]
  {
    var before, after := LiveMap(entities[id := entry]), LiveMap(entities)[KeyOf(id, entry) := entry.tally];
    forall k ensures k in before <==> k in after {
      LiveKeys(entities, k);
      LiveKeys(entities[id := entry], k);
    }
  }

  lemma LiveRemove(entities: map<string, Entry>, id: string)
    requires id in entities
    ensures LiveMap(entities - {id}) == LiveMap(entities) - {KeyOf(id, entities[id])}
    ensures KeyOf(id, entities[id]) in LiveMap(entities)
  {}

  lemma UpdateLast(a: map<Key, Tally>, b: map<Key, Tally>, c: map<Key, Tally>, k: Key, v: Tally)
    ensures a + b + c[k := v] == (a + b + c)[k := v]
  {}

  lemma MoveToMiddle(a: map<Key, Tally>, b: map<Key, Tally>, c: map<Key, Tally>, k: Key, v: Tally)
    ensures a + b[k := v] + (c - {k}) == (a + b + c)[k := v]
  {}

  lemma MoveStaysApart(a: map<Key, Tally>, b: map<Key, Tally>, c: map<Key, Tally>, n: nat, k: Key, v: Tally)
    requires k in c && Apart(a, b, c, n)
    ensures Apart(a, b[k := v], c - {k}, n)
  {}

  lemma AppendPending(pending: seq<Entry>, closed: Entry)
    requires DistinctPending(pending) && KeyOf(closed.entityId, closed) !in PendingMap(pending)
    ensures DistinctPending(pending + [closed])
    ensures PendingMap(pending + [closed]) == PendingMap(pending)[KeyOf(closed.entityId, closed) := closed.tally]
  {}

  /** Counting on in a live segment. */
  lemma ExtendLive(s: State, id: string, entry: Entry)
    requires Valid(s) && id in s.entities && entry.entityId == id && KeyOf(id, entry) == KeyOf(id, s.entities[id])
    ensures var s' := s.(entities := s.entities[id := entry]);
      Valid(s') && Segments(s') == Segments(s)[KeyOf(id, entry) := entry.tally]
  {
    LiveUpdate(s.entities, id, entry);
    LiveKeys(s.entities, KeyOf(id, entry));
    UpdateLast(s.archived, PendingMap(s.pending), LiveMap(s.entities), KeyOf(id, entry), entry.tally);
  }

  /** Beginning a live segment under new epochs. */
  lemma BeginLive(s: State, id: string, entry: Entry)
    requires Valid(s) && id !in s.entities && entry.entityId == id
    requires entry.trackingEpoch == s.nextEpoch && entry.assignmentEpoch == s.nextEpoch + 1
    ensures Valid(Begun(s, id, entry))
    ensures Segments(Begun(s, id, entry)) == Segments(s)[KeyOf(id, entry) := entry.tally]
  {
    LiveUpdate(s.entities, id, entry);
    UpdateLast(s.archived, PendingMap(s.pending), LiveMap(s.entities), KeyOf(id, entry), entry.tally);
  }

  /** Epochs to come name no segment. */
  lemma NewKey(s: State, id: string, entry: Entry)
    requires Valid(s) && entry.assignmentEpoch >= s.nextEpoch
    ensures KeyOf(id, entry) !in Segments(s)
  {}

  /** How closing a live segment moves its key from the live to the pending ones. */
  lemma CloseMaps(s: State, id: string, closed: Entry)
    requires Valid(s) && id in s.entities && closed.entityId == id && KeyOf(id, closed) == KeyOf(id, s.entities[id])
    ensures var key, s' := KeyOf(id, closed), Closed(s, id, closed);
      && key in LiveMap(s.entities)
      && DistinctPending(s'.pending)
      && PendingMap(s'.pending) == PendingMap(s.pending)[key := closed.tally]
      && LiveMap(s'.entities) == LiveMap(s.entities) - {key}
  {
    LiveRemove(s.entities, id);
    AppendPending(s.pending, closed);
  }

  lemma CloseIsValid(s: State, id: string, closed: Entry)
    requires Valid(s) && id in s.entities && closed.entityId == id && KeyOf(id, closed) == KeyOf(id, s.entities[id])
    requires closed.retired && closed.dirty
    ensures Valid(Closed(s, id, closed))
  {
    CloseMaps(s, id, closed);
    AppendClosed(s.pending, closed);
    MoveStaysApart(s.archived, PendingMap(s.pending), LiveMap(s.entities), s.nextEpoch, KeyOf(id, closed),
                   closed.tally);
  }

  /** Moving a live segment to the pending ones with its final count. */
  lemma CloseLive(s: State, id: string, closed: Entry)
    requires Valid(s) && id in s.entities && closed.entityId == id && KeyOf(id, closed) == KeyOf(id, s.entities[id])
    ensures Segments(Closed(s, id, closed)) == Segments(s)[KeyOf(id, closed) := closed.tally]
  {
    CloseMaps(s, id, closed);
    var a, b, c := s.archived, PendingMap(s.pending), LiveMap(s.entities);
    MoveToMiddle(a, b, c, KeyOf(id, closed), closed.tally);
  }

  // ---------------------------------------------------------- what is counted

  datatype Part = OnPart | OffPart | UnknownPart

  function Pick(tally: Tally, part: Part): nat {
    match part
    case OnPart => tally.on
    case OffPart => tally.off
    case UnknownPart => tally.unknown
  }

  function Picked(m: map<Key, Tally>, id: string, part: Part): map<Key, nat> {
    map k | k in m && k.entityId == id :: Pick(m[k], part)
  }

  /** Seconds of one kind counted for an entity in a table of segments. */
  ghost function Seconds(m: map<Key, Tally>, id: string, part: Part): nat {
    SumOver(Picked(m, id, part))
  }

  lemma SecondsUpdate(m: map<Key, Tally>, k: Key, v: Tally, id: string, part: Part)
    ensures Seconds(m[k := v], id, part) ==
      Seconds(m, id, part) + if k.entityId != id then 0 else Pick(v, part) - if k in m then Pick(m[k], part) else 0
  {
    if k.entityId == id {
      assert Picked(m[k := v], id, part) == Picked(m, id, part)[k := Pick(v, part)];
      SumUpdate(Picked(m, id, part), k, Pick(v, part));
    } else {
      assert Picked(m[k := v], id, part) == Picked(m, id, part);
    }
  }

  /** Seconds of one kind ever counted for an entity: archived, pending and live. */
  ghost function Accrued(s: State, id: string, part: Part): nat {
    Seconds(Segments(s), id, part)
  }

  lemma ExtendAccrues(s: State, id: string, entry: Entry, e: string, part: Part)
    requires Valid(s) && id in s.entities && entry.entityId == id && KeyOf(id, entry) == KeyOf(id, s.entities[id])
    ensures Accrued(s.(entities := s.entities[id := entry]), e, part) ==
      Accrued(s, e, part) + if id == e then Pick(entry.tally, part) - Pick(s.entities[id].tally, part) else 0
  {
    ExtendLive(s, id, entry);
    LiveKeys(s.entities, KeyOf(id, entry));
    SecondsUpdate(Segments(s), KeyOf(id, entry), entry.tally, e, part);
  }

  lemma CloseAccrues(s: State, id: string, closed: Entry, e: string, part: Part)
    requires Valid(s) && id in s.entities && closed.entityId == id && KeyOf(id, closed) == KeyOf(id, s.entities[id])
    ensures Accrued(Closed(s, id, closed), e, part) ==
      Accrued(s, e, part) + if id == e then Pick(closed.tally, part) - Pick(s.entities[id].tally, part) else 0
  {
    CloseLive(s, id, closed);
    LiveKeys(s.entities, KeyOf(id, closed));
    SecondsUpdate(Segments(s), KeyOf(id, closed), closed.tally, e, part);
  }

  lemma BeginAccrues(s: State, id: string, entry: Entry, e: string, part: Part)
    requires Valid(s) && id !in s.entities && entry.entityId == id
    requires entry.trackingEpoch == s.nextEpoch && entry.assignmentEpoch == s.nextEpoch + 1 &&
      entry.tally == Tally(0, 0, 0)
    ensures Accrued(Begun(s, id, entry), e, part) == Accrued(s, e, part)
  {
    BeginLive(s, id, entry);
    NewKey(s, id, entry);
    SecondsUpdate(Segments(s), KeyOf(id, entry), entry.tally, e, part);
  }

  // --------------------------------------------------------- one sighting

  lemma SeeIsValid(s: State, d: Descriptor, now: int, adopt: bool)
    requires Valid(s)
    ensures Valid(See(s, d, now, adopt))
  {
    var id := d.entityId;
    if id !in s.entities {
      BeginLive(s, id, Create(d, now, s.nextEpoch));
    } else {
      var entry := s.entities[id];
      if entry.areaId != d.areaId && !entry.retired {
        var closed := Retire(entry, now);
        CloseIsValid(s, id, closed);
        BeginLive(Closed(s, id, closed), id, Noted(Create(d, now, s.nextEpoch), d, now, adopt));
      } else {
        ExtendLive(s, id, Noted(Accrue(entry, now), d, now, adopt));
      }
    }
  }

  datatype Sighting = Sighting(at: int, known: bool, isOn: bool)

  function SightingOf(entry: Entry): Sighting {
    Sighting(entry.lastSeenAt, entry.lastWasKnown, entry.lastWasOn)
  }

  /** What the time between two sightings adds. */
  function Interval(from: Sighting, to: int): Tally {
    Share(from.known, from.isOn, Elapsed(from.at, to))
  }

  lemma RollAccrues(s: State, d: Descriptor, now: int, adopt: bool, e: string, part: Part)
    requires Valid(s) && d.entityId in s.entities
    requires s.entities[d.entityId].areaId != d.areaId && !s.entities[d.entityId].retired
    ensures Accrued(See(s, d, now, adopt), e, part) ==
      Accrued(s, e, part) + if e == d.entityId then Pick(Interval(SightingOf(s.entities[e]), now), part) else 0
  {
    var id := d.entityId;
    var closed := Retire(s.entities[id], now);
    CloseAccrues(s, id, closed, e, part);
    CloseIsValid(s, id, closed);
    BeginAccrues(Closed(s, id, closed), id, Noted(Create(d, now, s.nextEpoch), d, now, adopt), e, part);
  }

  /** A sighting adds the interval since the last one to its entity, and nothing to any other. */
  lemma SeeAccrues(s: State, d: Descriptor, now: int, adopt: bool, e: string, part: Part)
    requires Valid(s)
    ensures Accrued(See(s, d, now, adopt), e, part) ==
      Accrued(s, e, part) +
      if e == d.entityId && e in s.entities then Pick(Interval(SightingOf(s.entities[e]), now), part) else 0
  {
    hide Accrued;
    var id := d.entityId;
    if id !in s.entities {
      BeginAccrues(s, id, Create(d, now, s.nextEpoch), e, part);
    } else if s.entities[id].areaId != d.areaId && !s.entities[id].retired {
      RollAccrues(s, d, now, adopt, e, part);
    } else {
      ExtendAccrues(s, id, Noted(Accrue(s.entities[id], now), d, now, adopt), e, part);
    }
  }

  lemma SeeEntities(s: State, d: Descriptor, now: int, adopt: bool)
    ensures var s' := See(s, d, now, adopt);
      && s'.entities.Keys == s.entities.Keys + {d.entityId}
      && !s'.entities[d.entityId].retired
      && SightingOf(s'.entities[d.entityId]) == Sighting(now, d.known, d.isOn)
      && forall id | id in s.entities && id != d.entityId :: s'.entities[id] == s.entities[id]
  {}

  // ------------------------------------------------------- device changes

  /** The sightings of an entity among the descriptors of one change. */
  function SightingsIn(ds: seq<Descriptor>, now: int, e: string): seq<Sighting> {
    if ds == [] then []
    else if Last(ds).entityId == e then SightingsIn(Init(ds), now, e) + [Sighting(now, Last(ds).known, Last(ds).isOn)]
    else SightingsIn(Init(ds), now, e)
  }

  /** The latest of some sightings, or the one before them. */
  function Latest(first: Sighting, sightings: seq<Sighting>): Sighting {
    if sightings == [] then first else Last(sightings)
  }

  /** What a series of sightings adds up to. */
  function Expected(first: Sighting, sightings: seq<Sighting>): Tally {
    if sightings == [] then Tally(0, 0, 0)
    else Add(Expected(first, Init(sightings)), Interval(Latest(first, Init(sightings)), Last(sightings).at))
  }

  lemma AddAssoc(a: Tally, b: Tally, c: Tally)
    ensures Add(Add(a, b), c) == Add(a, Add(b, c))
  {}

  lemma {:induction false} ExpectedConcat(first: Sighting, a: seq<Sighting>, b: seq<Sighting>)
    ensures Expected(first, a + b) == Add(Expected(first, a), Expected(Latest(first, a), b))
    ensures Latest(first, a + b) == Latest(Latest(first, a), b)
  {
    if b == [] {
      assert a + b == a;
    } else {
      assert Init(a + b) == a + Init(b) && Last(a + b) == Last(b);
      ExpectedConcat(first, a, Init(b));
      var step := Interval(Latest(first, a + Init(b)), Last(b).at);
      assert Expected(first, a + b) == Add(Expected(first, a + Init(b)), step);
      AddAssoc(Expected(first, a), Expected(Latest(first, a), Init(b)), step);
    }
  }

  lemma SeeWithinIsValid(s: State, d: Descriptor, now: int, limit: nat)
    requires Valid(s)
    ensures Valid(SeeWithin(s, d, now, limit))
    ensures s.entities.Keys <= SeeWithin(s, d, now, limit).entities.Keys
  {
    SeeIsValid(s, d, now, true);
    SeeEntities(s, d, now, true);
  }

  lemma SeeWithinAccrues(s: State, d: Descriptor, now: int, limit: nat, e: string, part: Part)
    requires Valid(s) && e in s.entities
    ensures var s' := SeeWithin(s, d, now, limit);
      && e in s'.entities
      && Accrued(s', e, part) ==
           Accrued(s, e, part) + (if e == d.entityId then Pick(Interval(SightingOf(s.entities[e]), now), part) else 0)
      && SightingOf(s'.entities[e]) == if e == d.entityId then Sighting(now, d.known, d.isOn)
                                       else SightingOf(s.entities[e])
  {
    SeeAccrues(s, d, now, true, e, part);
    SeeEntities(s, d, now, true);
  }

  lemma {:induction false} SeeAllIsValid(s: State, ds: seq<Descriptor>, now: int, limit: nat, n: nat)
    requires Valid(s) && n <= |ds|
    ensures Valid(SeeAll(s, ds, now, limit, n))
    ensures s.entities.Keys <= SeeAll(s, ds, now, limit, n).entities.Keys
  {
    hide SeeWithin, Valid;
    if n == 0 {
    } else {
      SeeAllIsValid(s, ds, now, limit, n - 1);
      SeeWithinIsValid(SeeAll(s, ds, now, limit, n - 1), ds[n - 1], now, limit);
    }
  }

  lemma SightingsSnoc(ds: seq<Descriptor>, d: Descriptor, now: int, e: string)
    ensures SightingsIn(ds + [d], now, e) ==
      if d.entityId == e then SightingsIn(ds, now, e) + [Sighting(now, d.known, d.isOn)] else SightingsIn(ds, now, e)
  {}

  lemma ExpectedSnoc(first: Sighting, sightings: seq<Sighting>, next: Sighting)
    ensures Expected(first, sightings + [next]) ==
      Add(Expected(first, sightings), Interval(Latest(first, sightings), next.at))
    ensures Latest(first, sightings + [next]) == next
  {}

  lemma NothingSeen(first: Sighting, now: int, e: string)
    ensures SightingsIn([], now, e) == [] && Expected(first, []) == Tally(0, 0, 0) && Latest(first, []) == first
  {}

  /** A device change adds, for a tracked entity, what its sightings in the change add up to. */
  lemma {:induction false} SeeAllAccrues(s: State, ds: seq<Descriptor>, now: int, limit: nat, n: nat, e: string,
                                         part: Part)
    requires Valid(s) && n <= |ds| && e in s.entities
    ensures var s', first, seen := SeeAll(s, ds, now, limit, n), SightingOf(s.entities[e]),
      SightingsIn(ds[..n], now, e);
      && e in s'.entities
      && Accrued(s', e, part) == Accrued(s, e, part) + Pick(Expected(first, seen), part)
      && SightingOf(s'.entities[e]) == Latest(first, seen)
  {
    hide SeeWithin, Valid, Interval, Accrued, Expected, SightingsIn, Latest, SightingOf;
    if n == 0 {
      assert ds[..n] == [];
      NothingSeen(SightingOf(s.entities[e]), now, e);
    } else {
      SeeAllAccrues(s, ds, now, limit, n - 1, e, part);
      SeeAllIsValid(s, ds, now, limit, n - 1);
      var before, d := SeeAll(s, ds, now, limit, n - 1), ds[n - 1];
      assert ds[..n] == ds[..n - 1] + [d];
      SightingsSnoc(ds[..n - 1], d, now, e);
      SeeWithinAccrues(before, d, now, limit, e, part);
      ExpectedSnoc(SightingOf(s.entities[e]), SightingsIn(ds[..n - 1], now, e), Sighting(now, d.known, d.isOn));
    }
  }

  lemma RetireUnseenIsValid(s: State, deviceId: string, seen: set<string>, now: int)
    requires Valid(s)
    ensures Valid(RetireUnseen(s, deviceId, seen, now))
    ensures LiveMap(RetireUnseen(s, deviceId, seen, now).entities).Keys == LiveMap(s.entities).Keys
  {
    var s' := RetireUnseen(s, deviceId, seen, now);
    var before, after := LiveMap(s.entities), LiveMap(s'.entities);
    forall k ensures k in after <==> k in before {
      LiveKeys(s.entities, k);
      LiveKeys(s'.entities, k);
    }
  }

  lemma RetireUnseenSegment(s: State, deviceId: string, seen: set<string>, now: int, k: Key)
    requires Valid(s)
    ensures var s' := RetireUnseen(s, deviceId, seen, now);
      && (k in Segments(s') <==> k in Segments(s))
      && (k in Segments(s) ==> AtMost(Segments(s)[k], Segments(s')[k]))
      && (k in Segments(s) && (k.entityId in s.entities ==> s'.entities[k.entityId] == s.entities[k.entityId]) ==>
           Segments(s')[k] == Segments(s)[k])
  {
    LiveKeys(s.entities, k);
    LiveKeys(RetireUnseen(s, deviceId, seen, now).entities, k);
    hide LiveMap, PendingMap, Valid;
  }

  /** Retiring counts nothing for an entity it does not retire. */
  lemma RetireUnseenAccrues(s: State, deviceId: string, seen: set<string>, now: int, e: string, part: Part)
    requires Valid(s)
    requires e in s.entities ==> RetireUnseen(s, deviceId, seen, now).entities[e] == s.entities[e]
    ensures Accrued(RetireUnseen(s, deviceId, seen, now), e, part) == Accrued(s, e, part)
  {
    var s' := RetireUnseen(s, deviceId, seen, now);
    var before, after := Picked(Segments(s), e, part), Picked(Segments(s'), e, part);
    hide Segments, Valid;
    forall k ensures k in before <==> k in after {
      RetireUnseenSegment(s, deviceId, seen, now, k);
    }
    forall k | k in before ensures before[k] == after[k] {
      RetireUnseenSegment(s, deviceId, seen, now, k);
    }
    assert before == after;
  }

  lemma RetiredStays(before: seq<Entry>, last: Entry, deviceId: string)
    requires last.retired && RetirePending(before, deviceId) == before
    ensures RetirePending(before + [last], deviceId) == before + [last]
  {
    assert Init(before + [last]) == before;
  }

  lemma NothingToRetire(deviceId: string)
    ensures RetirePending([], deviceId) == []
  {}

  lemma {:induction false} RetireStartIsIdle(pending: seq<Entry>, deviceId: string, n: nat)
    requires n <= |pending| && forall i | 0 <= i < |pending| :: pending[i].retired
    ensures RetirePending(pending[..n], deviceId) == pending[..n]
  {
    hide *;
    if n == 0 {
      NothingToRetire(deviceId);
    } else {
      RetireStartIsIdle(pending, deviceId, n - 1);
      RetiredStays(pending[..n - 1], pending[n - 1], deviceId);
      assert pending[..n] == pending[..n - 1] + [pending[n - 1]];
    }
  }

  lemma RetirePendingIsIdle(pending: seq<Entry>, deviceId: string)
    requires forall i | 0 <= i < |pending| :: pending[i].retired
    ensures RetirePending(pending, deviceId) == pending
  {
    hide *;
    RetireStartIsIdle(pending, deviceId, |pending|);
    assert pending[..|pending|] == pending;
  }

  // ------------------------------------------------------- acknowledgement

  /** Which pending segments an acknowledgement keeps and drops: all of them are dirty, so it goes by key. */
  lemma {:induction false} PendingSplit(pending: seq<Entry>, keys: set<Key>, k: Key)
    requires AllClosed(pending) && DistinctPending(pending)
    ensures var all, kept, dropped := PendingMap(pending), PendingMap(KeptPending(pending, keys)),
      PendingMap(DroppedPending(pending, keys));
      && (k in kept <==> k in all && k !in keys) && (k in kept ==> kept[k] == all[k])
      && (k in dropped <==> k in all && k in keys) && (k in dropped ==> dropped[k] == all[k])
  {
    if pending == [] {
    } else {
      var before, last := Init(pending), Last(pending);
      assert AllClosed(before) && DistinctPending(before);
      PendingSplit(before, keys, k);
      PendingKeys(before, KeyOf(last.entityId, last));
      assert Init(KeptPending(before, keys) + [last]) == KeptPending(before, keys);
      assert Init(DroppedPending(before, keys) + [last]) == DroppedPending(before, keys);
    }
  }

  lemma {:induction false} KeptPendingIsValid(pending: seq<Entry>, keys: set<Key>)
    requires AllClosed(pending) && DistinctPending(pending)
    ensures AllClosed(KeptPending(pending, keys)) && DistinctPending(KeptPending(pending, keys))
  {
    if pending == [] {
    } else {
      var before, last := Init(pending), Last(pending);
      KeptPendingIsValid(before, keys);
      var key := KeyOf(last.entityId, last);
      PendingKeys(before, key);
      PendingSplit(before, keys, key);
      if key !in keys {
        AppendClosed(KeptPending(before, keys), last);
        AppendPending(KeptPending(before, keys), last);
      }
    }
  }

  lemma LiveSplit(entities: map<string, Entry>, keys: set<Key>, k: Key)
    ensures var all, kept, dropped := LiveMap(entities), LiveMap(KeptEntities(entities, keys)),
      LiveMap(DroppedEntities(entities, keys));
      var gone := k in all && k in keys && entities[k.entityId].dirty && entities[k.entityId].retired;
      && (k in kept <==> k in all && !gone) && (k in kept ==> kept[k] == all[k])
      && (k in dropped <==> gone) && (k in dropped ==> dropped[k] == all[k])
  {
    LiveKeys(entities, k);
    LiveKeys(KeptEntities(entities, keys), k);
    LiveKeys(DroppedEntities(entities, keys), k);
  }

  lemma AcknowledgeSegment(s: State, keys: set<Key>, k: Key)
    requires Valid(s)
    ensures var s' := Acknowledge(s, keys);
      && (k in Segments(s') <==> k in Segments(s))
      && (k in Segments(s) ==> Segments(s')[k] == Segments(s)[k])
  {
    PendingSplit(s.pending, keys, k);
    LiveSplit(s.entities, keys, k);
    hide KeptPending, DroppedPending, KeptEntities, DroppedEntities, PendingMap, LiveMap, DistinctPending;
  }

  /** `kept` and `dropped` share out the keys of `all`. */
  ghost predicate SharedOut(all: map<Key, Tally>, kept: map<Key, Tally>, dropped: map<Key, Tally>) {
    && (forall k | k in kept :: k in all && k !in dropped)
    && (forall k | k in dropped :: k in all)
  }

  lemma SharedOutStaysApart(a: map<Key, Tally>, p: map<Key, Tally>, l: map<Key, Tally>, n: nat,
                            pk: map<Key, Tally>, pd: map<Key, Tally>, lk: map<Key, Tally>, ld: map<Key, Tally>)
    requires Apart(a, p, l, n) && SharedOut(p, pk, pd) && SharedOut(l, lk, ld)
    ensures Apart(a + pd + ld, pk, lk, n)
  {}

  lemma PendingIsSharedOut(pending: seq<Entry>, keys: set<Key>)
    requires AllClosed(pending) && DistinctPending(pending)
    ensures SharedOut(PendingMap(pending), PendingMap(KeptPending(pending, keys)),
                      PendingMap(DroppedPending(pending, keys)))
  {
    forall k {
      PendingSplit(pending, keys, k);
    }
  }

  lemma LiveIsSharedOut(entities: map<string, Entry>, keys: set<Key>)
    ensures SharedOut(LiveMap(entities), LiveMap(KeptEntities(entities, keys)),
                      LiveMap(DroppedEntities(entities, keys)))
  {}

  lemma AcknowledgeStaysApart(s: State, keys: set<Key>)
    requires Valid(s)
    ensures Valid(Acknowledge(s, keys))
  {
    KeptPendingIsValid(s.pending, keys);
    PendingIsSharedOut(s.pending, keys);
    LiveIsSharedOut(s.entities, keys);
    SharedOutStaysApart(s.archived, PendingMap(s.pending), LiveMap(s.entities), s.nextEpoch,
                        PendingMap(KeptPending(s.pending, keys)), PendingMap(DroppedPending(s.pending, keys)),
                        LiveMap(KeptEntities(s.entities, keys)), LiveMap(DroppedEntities(s.entities, keys)));
  }

  /** An acknowledgement moves segments to the archive; it loses, invents and changes none. */
  lemma AcknowledgeKeepsSegments(s: State, keys: set<Key>)
    requires Valid(s)
    ensures Valid(Acknowledge(s, keys))
    ensures Segments(Acknowledge(s, keys)) == Segments(s)
  {
    hide *;
    AcknowledgeStaysApart(s, keys);
    var before, after := Segments(s), Segments(Acknowledge(s, keys));
    forall k ensures (k in before <==> k in after) && (k in before ==> before[k] == after[k]) {
      AcknowledgeSegment(s, keys, k);
    }
  }

  lemma {:induction false} PendingIsDirty(pending: seq<Entry>)
    requires AllClosed(pending)
    ensures DirtyPending(pending) == pending
  {
    hide AllClosed;
    if pending == [] {
    } else {
      ClosedUntilLast(pending);
      PendingIsDirty(Init(pending));
      LastIsAppended(pending);
    }
  }

  lemma ClosedUntilLast(pending: seq<Entry>)
    requires AllClosed(pending) && pending != []
    ensures AllClosed(Init(pending)) && Last(pending).dirty
  {}

  lemma LastIsAppended(pending: seq<Entry>)
    requires pending != []
    ensures Init(pending) + [Last(pending)] == pending
  {}

  /** A key is in the payload exactly if its segment is pending, or live and dirty; its row is the segment's count. */
  lemma PayloadKeys(s: State, k: Key)
    requires Valid(s)
    ensures k in Payload(s) <==>
      k in PendingMap(s.pending) || (k in LiveMap(s.entities) && s.entities[k.entityId].dirty)
    ensures k in Payload(s) ==> k in Segments(s) && Payload(s)[k] == Segments(s)[k]
  {
    PendingIsDirty(s.pending);
    LiveKeys(s.entities, k);
    LiveKeys(DirtyOf(s.entities), k);
  }

  // ------------------------------------------------------------- platform

  predicate AtMost(a: Tally, b: Tally) {
    a.on <= b.on && a.off <= b.off && a.unknown <= b.unknown
  }

  /** The platform's table is behind, and exactly up to date for what will not be sent again. */
  ghost predicate PlatformOk(s: State, platform: map<Key, Tally>) {
    && (forall k | k in platform :: k in Segments(s) && AtMost(platform[k], Segments(s)[k]))
    && (forall k | k in s.archived :: k in platform && platform[k] == s.archived[k])
    && (forall id | id in s.entities && !s.entities[id].dirty ::
          KeyOf(id, s.entities[id]) in platform && platform[KeyOf(id, s.entities[id])] == s.entities[id].tally)
  }

  ghost predicate MapGrows(m: map<Key, Tally>, m': map<Key, Tally>) {
    forall k | k in m :: k in m' && AtMost(m[k], m'[k])
  }

  lemma UpdateGrows(m: map<Key, Tally>, k: Key, v: Tally)
    requires k in m ==> AtMost(m[k], v)
    ensures MapGrows(m, m[k := v])
  {}

  /** Segments only grow, and an entity that is not dirty has not changed. */
  ghost predicate Grows(s: State, s': State) {
    && s'.archived == s.archived
    && MapGrows(Segments(s), Segments(s'))
    && (forall id | id in s'.entities && !s'.entities[id].dirty ::
         id in s.entities && s.entities[id] == s'.entities[id])
  }

  lemma GrowingKeepsPlatform(s: State, s': State, platform: map<Key, Tally>)
    requires PlatformOk(s, platform) && Grows(s, s')
    ensures PlatformOk(s', platform)
  {
    hide Segments;
  }

  lemma GrowsIsTransitive(s: State, s': State, s'': State)
    requires Grows(s, s') && Grows(s', s'')
    ensures Grows(s, s'')
  {
    hide Segments;
  }

  lemma LiveIsSegment(s: State, id: string)
    requires id in s.entities
    ensures KeyOf(id, s.entities[id]) in Segments(s) && Segments(s)[KeyOf(id, s.entities[id])] == s.entities[id].tally
  {}

  lemma ExtendGrows(s: State, id: string, entry: Entry)
    requires Valid(s) && id in s.entities && entry.entityId == id && KeyOf(id, entry) == KeyOf(id, s.entities[id])
    requires entry.dirty && AtMost(s.entities[id].tally, entry.tally)
    ensures Grows(s, s.(entities := s.entities[id := entry]))
  {
    ExtendLive(s, id, entry);
    LiveIsSegment(s, id);
    UpdateGrows(Segments(s), KeyOf(id, entry), entry.tally);
    hide Valid, Segments, MapGrows;
  }

  lemma CloseGrows(s: State, id: string, closed: Entry)
    requires Valid(s) && id in s.entities && closed.entityId == id && KeyOf(id, closed) == KeyOf(id, s.entities[id])
    requires AtMost(s.entities[id].tally, closed.tally)
    ensures Grows(s, Closed(s, id, closed))
  {
    CloseLive(s, id, closed);
    LiveIsSegment(s, id);
    UpdateGrows(Segments(s), KeyOf(id, closed), closed.tally);
    hide Valid, Segments, MapGrows;
  }

  lemma BeginGrows(s: State, id: string, entry: Entry)
    requires Valid(s) && id !in s.entities && entry.entityId == id && entry.dirty
    requires entry.trackingEpoch == s.nextEpoch && entry.assignmentEpoch == s.nextEpoch + 1
    ensures Grows(s, Begun(s, id, entry))
  {
    BeginLive(s, id, entry);
    NewKey(s, id, entry);
    UpdateGrows(Segments(s), KeyOf(id, entry), entry.tally);
    hide Valid, Segments, MapGrows;
  }

  lemma SeeGrows(s: State, d: Descriptor, now: int, adopt: bool)
    requires Valid(s)
    ensures Grows(s, See(s, d, now, adopt))
  {
    var id := d.entityId;
    if id !in s.entities {
      BeginGrows(s, id, Create(d, now, s.nextEpoch));
    } else if s.entities[id].areaId != d.areaId && !s.entities[id].retired {
      var closed, next := Retire(s.entities[id], now), Noted(Create(d, now, s.nextEpoch), d, now, adopt);
      CloseGrows(s, id, closed);
      CloseIsValid(s, id, closed);
      BeginGrows(Closed(s, id, closed), id, next);
      GrowsIsTransitive(s, Closed(s, id, closed), Begun(Closed(s, id, closed), id, next));
    } else {
      ExtendGrows(s, id, Noted(Accrue(s.entities[id], now), d, now, adopt));
    }
  }

  lemma GrowsIsReflexive(s: State)
    ensures Grows(s, s)
  {}

  lemma SeeWithinGrows(s: State, d: Descriptor, now: int, limit: nat)
    requires Valid(s)
    ensures Grows(s, SeeWithin(s, d, now, limit))
  {
    GrowsIsReflexive(s);
    SeeGrows(s, d, now, true);
  }

  lemma {:induction false} SeeAllGrows(s: State, ds: seq<Descriptor>, now: int, limit: nat, n: nat)
    requires Valid(s) && n <= |ds|
    ensures Grows(s, SeeAll(s, ds, now, limit, n))
  {
    GrowsIsReflexive(s);
    hide Grows, SeeWithin, Valid;
    if n == 0 {
    } else {
      SeeAllGrows(s, ds, now, limit, n - 1);
      SeeAllIsValid(s, ds, now, limit, n - 1);
      SeeWithinGrows(SeeAll(s, ds, now, limit, n - 1), ds[n - 1], now, limit);
      GrowsIsTransitive(s, SeeAll(s, ds, now, limit, n - 1), SeeAll(s, ds, now, limit, n));
    }
  }

  lemma RetireUnseenGrows(s: State, deviceId: string, seen: set<string>, now: int)
    requires Valid(s)
    ensures Grows(s, RetireUnseen(s, deviceId, seen, now))
  {
    forall k {
      RetireUnseenSegment(s, deviceId, seen, now, k);
    }
    hide Segments, Valid;
  }

  // ------------------------------------------------------------------ runs

  /** `Sync` is an upload acknowledged before anything else happens; otherwise an `Ack` follows its `Upload` later. */
  datatype Event =
    | Observe(descriptor: Descriptor, now: int)
    | Change(deviceId: string, descriptors: seq<Descriptor>, now: int)
    | Remove(deviceId: string, now: int)
    | Sync
    | Upload
    | Ack(keys: set<Key>)

  function Step(s: State, event: Event, limit: nat): State {
    match event
    case Observe(d, now) => if d.entityId == "" then s else See(s, d, now, false)
    case Change(deviceId, ds, now) => DeviceChanged(s, deviceId, ds, now, limit)
    case Remove(deviceId, now) => RetireDevice(s, deviceId, now)
    case Sync => Acknowledge(s, Payload(s).Keys)
    case Upload => s
    case Ack(keys) => Acknowledge(s, keys)
  }

  const INITIAL := State(map[], [], 0, map[])

  function Run(s: State, trace: seq<Event>, limit: nat): State {
    if trace == [] then s else Step(Run(s, Init(trace), limit), Last(trace), limit)
  }

  lemma InitialIsValid(limit: nat)
    ensures Valid(INITIAL) && Run(INITIAL, [], limit) == INITIAL
  {}

  lemma StepIsValid(s: State, event: Event, limit: nat)
    requires Valid(s)
    ensures Valid(Step(s, event, limit))
  {
    match event
    case Observe(d, now) => SeeIsValid(s, d, now, false);
    case Change(deviceId, ds, now) =>
      SeeAllIsValid(s, ds, now, limit, |ds|);
      var after := SeeAll(s, ds, now, limit, |ds|);
      RetireUnseenIsValid(after, deviceId, Tracked(after, ds), now);
    case Remove(deviceId, now) =>
      RetireUnseenIsValid(s, deviceId, {}, now);
      RetirePendingIsIdle(s.pending, deviceId);
    case Sync => AcknowledgeKeepsSegments(s, Payload(s).Keys);
    case Upload =>
    case Ack(keys) => AcknowledgeKeepsSegments(s, keys);
  }

  lemma {:induction false} RunIsValid(s: State, trace: seq<Event>, limit: nat)
    requires Valid(s)
    ensures Valid(Run(s, trace, limit))
  {
    hide Valid, Step;
    if trace == [] {
    } else {
      RunIsValid(s, Init(trace), limit);
      StepIsValid(Run(s, Init(trace), limit), Last(trace), limit);
    }
  }

  /** The sightings of an entity in one event, and in a run. */
  function SightingsOf(event: Event, e: string): seq<Sighting> {
    match event
    case Observe(d, now) => if d.entityId == e then [Sighting(now, d.known, d.isOn)] else []
    case Change(_, ds, now) => SightingsIn(ds, now, e)
    case _ => []
  }

  function Sightings(trace: seq<Event>, e: string): seq<Sighting> {
    if trace == [] then [] else Sightings(Init(trace), e) + SightingsOf(Last(trace), e)
  }

  /** An entity is live after an event that leaves it live only if the event did not retire it. */
  ghost predicate StaysLive(s: State, s': State, e: string) {
    e in s.entities && !s.entities[e].retired && e in s'.entities && !s'.entities[e].retired
  }

  lemma ChangeAccrues(s: State, deviceId: string, ds: seq<Descriptor>, now: int, limit: nat, e: string, part: Part)
    requires Valid(s) && StaysLive(s, DeviceChanged(s, deviceId, ds, now, limit), e)
    ensures var s', seen := DeviceChanged(s, deviceId, ds, now, limit), SightingsIn(ds, now, e);
      && Accrued(s', e, part) == Accrued(s, e, part) + Pick(Expected(SightingOf(s.entities[e]), seen), part)
      && SightingOf(s'.entities[e]) == Latest(SightingOf(s.entities[e]), seen)
  {
    var after := SeeAll(s, ds, now, limit, |ds|);
    assert ds[..|ds|] == ds;
    SeeAllIsValid(s, ds, now, limit, |ds|);
    SeeAllAccrues(s, ds, now, limit, |ds|, e, part);
    RetireUnseenAccrues(after, deviceId, Tracked(after, ds), now, e, part);
  }

  lemma RemoveAccrues(s: State, deviceId: string, now: int, e: string, part: Part)
    requires Valid(s) && StaysLive(s, RetireDevice(s, deviceId, now), e)
    ensures Accrued(RetireDevice(s, deviceId, now), e, part) == Accrued(s, e, part)
    ensures RetireDevice(s, deviceId, now).entities[e] == s.entities[e]
  {
    RetirePendingIsIdle(s.pending, deviceId);
    RetireUnseenAccrues(s, deviceId, {}, now, e, part);
  }

  lemma AckAccrues(s: State, keys: set<Key>, e: string, part: Part)
    requires Valid(s) && StaysLive(s, Acknowledge(s, keys), e)
    ensures Accrued(Acknowledge(s, keys), e, part) == Accrued(s, e, part)
    ensures SightingOf(Acknowledge(s, keys).entities[e]) == SightingOf(s.entities[e])
  {
    AcknowledgeKeepsSegments(s, keys);
  }

  /** One event adds, for an entity it leaves live, what the sightings in it add up to. */
  lemma StepAccrues(s: State, event: Event, limit: nat, e: string, part: Part)
    requires Valid(s) && e != "" && StaysLive(s, Step(s, event, limit), e)
    ensures var s', seen := Step(s, event, limit), SightingsOf(event, e);
      && Accrued(s', e, part) == Accrued(s, e, part) + Pick(Expected(SightingOf(s.entities[e]), seen), part)
      && SightingOf(s'.entities[e]) == Latest(SightingOf(s.entities[e]), seen)
  {
    hide Accrued, Interval;
    match event
    case Observe(d, now) =>
      SeeAccrues(s, d, now, false, e, part);
      SeeEntities(s, d, now, false);
      if d.entityId == e {
        ExpectedSnoc(SightingOf(s.entities[e]), [], Sighting(now, d.known, d.isOn));
        assert [] + [Sighting(now, d.known, d.isOn)] == [Sighting(now, d.known, d.isOn)];
      }
    case Change(deviceId, ds, now) => ChangeAccrues(s, deviceId, ds, now, limit, e, part);
    case Remove(deviceId, now) => RemoveAccrues(s, deviceId, now, e, part);
    case Sync => AckAccrues(s, Payload(s).Keys, e, part);
    case Upload =>
    case Ack(keys) => AckAccrues(s, keys, e, part);
  }

  /**
    While an entity is never retired, what has been counted for it over all its segments, archived, pending and
    live, grows by exactly what its sightings add up to, whatever its areas, the other entities, uploads and
    acknowledgements do.
   */
  lemma {:induction false} RunAccrues(s: State, trace: seq<Event>, limit: nat, e: string, part: Part)
    requires Valid(s) && e != ""
    requires forall k | 0 <= k <= |trace| ::
      e in Run(s, trace[..k], limit).entities && !Run(s, trace[..k], limit).entities[e].retired
    ensures e in s.entities && e in Run(s, trace, limit).entities
    ensures var s', first, seen := Run(s, trace, limit), SightingOf(s.entities[e]), Sightings(trace, e);
      && Accrued(s', e, part) == Accrued(s, e, part) + Pick(Expected(first, seen), part)
      && SightingOf(s'.entities[e]) == Latest(first, seen)
  {
    hide Step, Valid, Accrued, SightingsOf;
    assert trace[..0] == [] && trace[..|trace|] == trace;
    if trace == [] {
    } else {
      var before := Init(trace);
      assert trace[..|trace| - 1] == before;
      forall k | 0 <= k <= |before|
        ensures e in Run(s, before[..k], limit).entities && !Run(s, before[..k], limit).entities[e].retired
      {
        assert before[..k] == trace[..k];
      }
      RunAccrues(s, before, limit, e, part);
      RunIsValid(s, before, limit);
      StepAccrues(Run(s, before, limit), Last(trace), limit, e, part);
      ExpectedConcat(SightingOf(s.entities[e]), Sightings(before, e), SightingsOf(Last(trace), e));
    }
  }

  // -------------------------------------------- every run, retired or not

  /** The last sighting of an entity, while it is tracked. */
  function Sighted(s: State, e: string): Option<Sighting> {
    if e in s.entities then Some(SightingOf(s.entities[e])) else None
  }

  function LatestOf(first: Option<Sighting>, seen: seq<Sighting>): Option<Sighting> {
    if seen == [] then first else Some(Last(seen))
  }

  /** What a sighting adds: the interval since the one before, if there was one. */
  function Since(before: Option<Sighting>, to: int): Tally {
    if before.None? then Tally(0, 0, 0) else Interval(before.value, to)
  }

  /** What sightings add up to, the first of which may be the first ever. */
  function ExpectedFrom(first: Option<Sighting>, seen: seq<Sighting>): Tally {
    if seen == [] then Tally(0, 0, 0)
    else Add(ExpectedFrom(first, Init(seen)), Since(LatestOf(first, Init(seen)), Last(seen).at))
  }

  lemma ExpectedFromSnoc(first: Option<Sighting>, seen: seq<Sighting>, next: Sighting)
    ensures ExpectedFrom(first, seen + [next]) == Add(ExpectedFrom(first, seen), Since(LatestOf(first, seen), next.at))
    ensures LatestOf(first, seen + [next]) == Some(next)
  {
    assert Init(seen + [next]) == seen;
  }

  lemma {:induction false} SubsetIsSmaller<T>(a: set<T>, b: set<T>)
    requires a <= b
    ensures |a| <= |b|
  {
    if a == {} {
    } else {
      var x :| x in a;
      SubsetIsSmaller(a - {x}, b - {x});
    }
  }

  /** A sighting within the limit of tracked entities. */
  lemma SeeWithinCounts(s: State, d: Descriptor, now: int, limit: nat, e: string, part: Part)
    requires Valid(s)
    ensures var s' := SeeWithin(s, d, now, limit);
      && |s.entities| <= |s'.entities|
      && (e in s.entities ==> e in s'.entities)
      && (d.entityId == e && e !in s'.entities ==> |s'.entities| >= limit)
      && (d.entityId == e && e !in s.entities && e in s'.entities ==> |s.entities| < limit)
      && (if d.entityId == e && e in s'.entities then
            && Sighted(s', e) == Some(Sighting(now, d.known, d.isOn))
            && Accrued(s', e, part) == Accrued(s, e, part) + Pick(Since(Sighted(s, e), now), part)
          else
            && Sighted(s', e) == Sighted(s, e)
            && (e in s.entities ==> s'.entities[e] == s.entities[e])
            && Accrued(s', e, part) == Accrued(s, e, part))
  {
    hide See, Accrued, Interval, Valid;
    SeeAccrues(s, d, now, true, e, part);
    SeeEntities(s, d, now, true);
    SubsetIsSmaller(s.entities.Keys, SeeWithin(s, d, now, limit).entities.Keys);
  }

  /** The sightings of an entity in a change, if it is tracked in the end. */
  function SeenBy(s: State, ds: seq<Descriptor>, now: int, e: string): seq<Sighting> {
    if e in s.entities then SightingsIn(ds, now, e) else []
  }

  /** A device change adds what the sightings of an entity in it add up to, tracked before or not. */
  lemma {:induction false} SeeAllCounts(s: State, ds: seq<Descriptor>, now: int, limit: nat, n: nat, e: string,
                                        part: Part)
    requires Valid(s) && n <= |ds|
    ensures var s' := SeeAll(s, ds, now, limit, n);
      var seen := SeenBy(s', ds[..n], now, e);
      && Accrued(s', e, part) == Accrued(s, e, part) + Pick(ExpectedFrom(Sighted(s, e), seen), part)
      && Sighted(s', e) == LatestOf(Sighted(s, e), seen)
      && (e in s.entities ==> e in s'.entities)
      && (e !in s'.entities && SightingsIn(ds[..n], now, e) != [] ==> |s'.entities| >= limit)
      && (e in s.entities && SightingsIn(ds[..n], now, e) == [] ==> s'.entities[e] == s.entities[e])
  {
    hide SeeWithin, Valid, Accrued, ExpectedFrom, SightingsIn, Since, SightingOf;
    if n == 0 {
      assert ds[..n] == [];
      NothingSeenFrom(Sighted(s, e), now, e);
    } else {
      SeeAllCounts(s, ds, now, limit, n - 1, e, part);
      SeeAllIsValid(s, ds, now, limit, n - 1);
      var before, d := SeeAll(s, ds, now, limit, n - 1), ds[n - 1];
      assert ds[..n] == ds[..n - 1] + [d];
      SightingsSnoc(ds[..n - 1], d, now, e);
      SeeWithinCounts(before, d, now, limit, e, part);
      ExpectedFromSnoc(Sighted(s, e), SightingsIn(ds[..n - 1], now, e), Sighting(now, d.known, d.isOn));
    }
  }

  lemma NothingSeenFrom(first: Option<Sighting>, now: int, e: string)
    ensures SightingsIn([], now, e) == [] && ExpectedFrom(first, []) == Tally(0, 0, 0)
  {}

  /** Retiring counts the interval since the last sighting of the entities it retires, and moves no sighting. */
  lemma RetireUnseenCounts(s: State, deviceId: string, seen: set<string>, now: int, e: string, part: Part)
    requires Valid(s)
    ensures var s' := RetireUnseen(s, deviceId, seen, now);
      && s'.entities.Keys == s.entities.Keys
      && Sighted(s', e) == Sighted(s, e)
      && Accrued(s', e, part) == Accrued(s, e, part) +
         if e in s.entities && s.entities[e].deviceId == deviceId && e !in seen && !s.entities[e].retired
         then Pick(Interval(SightingOf(s.entities[e]), now), part) else 0
  {
    hide Accrued, Valid, Elapsed;
    if e in s.entities && s.entities[e].deviceId == deviceId && e !in seen && !s.entities[e].retired {
      var retired := Retire(s.entities[e], now);
      var alone := s.(entities := s.entities[e := retired]);
      EntryIsNamed(s, e);
      ExtendAccrues(s, e, retired, e, part);
      ExtendLive(s, e, retired);
      RetireUnseenAccrues(alone, deviceId, seen, now, e, part);
      assert RetireUnseen(alone, deviceId, seen, now) == RetireUnseen(s, deviceId, seen, now);
    } else {
      RetireUnseenAccrues(s, deviceId, seen, now, e, part);
    }
  }

  lemma EntryIsNamed(s: State, e: string)
    requires Valid(s) && e in s.entities
    ensures s.entities[e].entityId == e
  {}

  /** When an event retires an entity: its device is removed, or is looked at without showing it. */
  function RetiredAt(s: State, event: Event, e: string): Option<int> {
    if e !in s.entities || s.entities[e].retired then None
    else
      match event
      case Change(deviceId, ds, now) =>
        if s.entities[e].deviceId == deviceId && SightingsIn(ds, now, e) == [] then Some(now) else None
      case Remove(deviceId, now) => if s.entities[e].deviceId == deviceId then Some(now) else None
      case _ => None
  }

  /** The sightings of an entity in an event, if it is tracked afterwards. */
  function Seen(s: State, event: Event, limit: nat, e: string): seq<Sighting> {
    if e in Step(s, event, limit).entities then SightingsOf(event, e) else []
  }

  /** What a retirement counts: the interval since the last sighting. */
  function RetirementAdds(s: State, event: Event, e: string): Tally {
    if RetiredAt(s, event, e).Some? then Since(Sighted(s, e), RetiredAt(s, event, e).value) else Tally(0, 0, 0)
  }

  /** What an event counts for an entity: its sightings, and its retirement if it is retired. */
  function Contribution(s: State, event: Event, limit: nat, e: string): Tally {
    Add(ExpectedFrom(Sighted(s, e), Seen(s, event, limit, e)), RetirementAdds(s, event, e))
  }

  lemma {:induction false} SightingsAreOfDescriptors(ds: seq<Descriptor>, now: int, e: string)
    ensures SightingsIn(ds, now, e) != [] <==> exists d :: d in ds && d.entityId == e
  {
    if ds == [] {
    } else {
      SightingsAreOfDescriptors(Init(ds), now, e);
      assert ds == Init(ds) + [Last(ds)];
    }
  }

  lemma TrackedIsSeen(s: State, ds: seq<Descriptor>, now: int, e: string)
    requires e in s.entities
    ensures e in Tracked(s, ds) <==> SightingsIn(ds, now, e) != []
  {
    SightingsAreOfDescriptors(ds, now, e);
  }

  lemma ChangeCounts(s: State, deviceId: string, ds: seq<Descriptor>, now: int, limit: nat, e: string, part: Part)
    requires Valid(s)
    ensures var event := Change(deviceId, ds, now);
      var s' := Step(s, event, limit);
      && Accrued(s', e, part) == Accrued(s, e, part) + Pick(Contribution(s, event, limit, e), part)
      && Sighted(s', e) == LatestOf(Sighted(s, e), Seen(s, event, limit, e))
  {
    hide Accrued, Valid, ExpectedFrom, SightingsIn, Interval, RetireUnseen, SeeAll, Tracked, SightingOf;
    var after := SeeAll(s, ds, now, limit, |ds|);
    assert ds[..|ds|] == ds;
    SeeAllIsValid(s, ds, now, limit, |ds|);
    SeeAllCounts(s, ds, now, limit, |ds|, e, part);
    RetireUnseenCounts(after, deviceId, Tracked(after, ds), now, e, part);
    if e in after.entities {
      TrackedIsSeen(after, ds, now, e);
    }
    NothingSeenFrom(Sighted(s, e), now, e);
    SeenIsLive(s, ds, now, limit, e);
  }

  /** An entity that a change shows is not retired by it. */
  lemma {:induction false} SeenIsLive(s: State, ds: seq<Descriptor>, now: int, limit: nat, e: string)
    ensures var after := SeeAll(s, ds, now, limit, |ds|);
      e in after.entities && e !in s.entities ==> SightingsIn(ds, now, e) != []
  {
    if ds == [] {
    } else {
      SeeAllPrefix(s, ds, now, limit, |ds| - 1);
      SeenIsLive(s, Init(ds), now, limit, e);
      SeeEntities(SeeAll(s, Init(ds), now, limit, |ds| - 1), Last(ds), now, true);
      hide See;
    }
  }

  lemma {:induction false} SeeAllPrefix(s: State, ds: seq<Descriptor>, now: int, limit: nat, n: nat)
    requires ds != [] && n < |ds|
    ensures SeeAll(s, ds, now, limit, n) == SeeAll(s, Init(ds), now, limit, n)
  {
    hide SeeWithin;
    if n == 0 {
    } else {
      SeeAllPrefix(s, ds, now, limit, n - 1);
    }
  }

  lemma RemoveCounts(s: State, deviceId: string, now: int, limit: nat, e: string, part: Part)
    requires Valid(s)
    ensures var event := Remove(deviceId, now);
      var s' := Step(s, event, limit);
      && Accrued(s', e, part) == Accrued(s, e, part) + Pick(Contribution(s, event, limit, e), part)
      && Sighted(s', e) == LatestOf(Sighted(s, e), Seen(s, event, limit, e)) && s'.entities.Keys == s.entities.Keys
  {
    hide Accrued, Interval, RetireUnseen, RetireDevice, SightingOf, Valid, ExpectedFrom, Acknowledge, DeviceChanged;
    RemovalRetiresAll(s, deviceId, now);
    RetireUnseenCounts(s, deviceId, {}, now, e, part);
    NothingSeenFrom(Sighted(s, e), now, e);
  }

  lemma RemovalRetiresAll(s: State, deviceId: string, now: int)
    requires Valid(s)
    ensures RetireDevice(s, deviceId, now) == RetireUnseen(s, deviceId, {}, now)
  {
    RetirePendingIsIdle(s.pending, deviceId);
  }

  lemma ObserveContributes(s: State, d: Descriptor, now: int, limit: nat, e: string)
    requires e != ""
    ensures Contribution(s, Observe(d, now), limit, e) ==
      if d.entityId == e then Since(Sighted(s, e), now) else Tally(0, 0, 0)
    ensures Seen(s, Observe(d, now), limit, e) == if d.entityId == e then [Sighting(now, d.known, d.isOn)] else []
  {
    hide ExpectedFrom, Since, Sighted, SightingsIn, Interval, Step;
    if d.entityId != "" {
      ObserveSees(s, d, now, limit);
      SeenIsTracked(s, d, now);
    }
    NothingSeenFrom(Sighted(s, e), now, e);
    OneSeenFrom(Sighted(s, e), Sighting(now, d.known, d.isOn));
  }

  lemma SeenIsTracked(s: State, d: Descriptor, now: int)
    ensures d.entityId in See(s, d, now, false).entities
  {
    SeeEntities(s, d, now, false);
  }

  lemma ObserveCounts(s: State, d: Descriptor, now: int, limit: nat, e: string, part: Part)
    requires Valid(s) && e != ""
    ensures var event := Observe(d, now);
      var s' := Step(s, event, limit);
      && Accrued(s', e, part) == Accrued(s, e, part) + Pick(Contribution(s, event, limit, e), part)
      && (e in s'.entities ==> Sighted(s', e) == LatestOf(Sighted(s, e), Seen(s, event, limit, e)))
  {
    hide Accrued, See, Valid, Contribution, Seen, Step;
    ObserveContributes(s, d, now, limit, e);
    if d.entityId != "" {
      ObserveSees(s, d, now, limit);
      SeeAccrues(s, d, now, false, e, part);
      SeeEntities(s, d, now, false);
    } else {
      ObservesNothing(s, d, now, limit);
    }
  }

  lemma ObservesNothing(s: State, d: Descriptor, now: int, limit: nat)
    requires d.entityId == ""
    ensures Step(s, Observe(d, now), limit) == s
  {}

  lemma OneSeenFrom(first: Option<Sighting>, next: Sighting)
    ensures ExpectedFrom(first, [next]) == Since(first, next.at)
  {
    hide Interval;
    assert Init([next]) == [];
  }

  lemma AckCounts(s: State, keys: set<Key>, e: string, part: Part)
    requires Valid(s)
    ensures var s' := Acknowledge(s, keys);
      && Accrued(s', e, part) == Accrued(s, e, part)
      && s'.entities.Keys <= s.entities.Keys
      && (e in s'.entities ==> Sighted(s', e) == Sighted(s, e))
  {
    AcknowledgeKeepsSegments(s, keys);
    hide Valid, Segments;
  }

  /**
    Every event adds exactly its contribution, for every entity, and leaves the entity, if it is still tracked, with
    the latest sighting.
   */
  lemma StepCounts(s: State, event: Event, limit: nat, e: string, part: Part)
    requires Valid(s) && e != ""
    ensures var s' := Step(s, event, limit);
      && Accrued(s', e, part) == Accrued(s, e, part) + Pick(Contribution(s, event, limit, e), part)
      && (e in s'.entities ==> Sighted(s', e) == LatestOf(Sighted(s, e), Seen(s, event, limit, e)))
  {
    hide Accrued, Valid, Contribution, Seen, Acknowledge, DeviceChanged, RetireDevice, See, Sighted;
    match event
    case Observe(d, now) => ObserveCounts(s, d, now, limit, e, part);
    case Change(deviceId, ds, now) => ChangeCounts(s, deviceId, ds, now, limit, e, part);
    case Remove(deviceId, now) => RemoveCounts(s, deviceId, now, limit, e, part);
    case Sync =>
      AckCounts(s, Payload(s).Keys, e, part);
      NothingContributes(s, event, limit, e);
    case Upload => NothingContributes(s, event, limit, e);
    case Ack(keys) =>
      AckCounts(s, keys, e, part);
      NothingContributes(s, event, limit, e);
  }

  /** Uploads and acknowledgements show nothing and retire nothing. */
  lemma NothingHappens(s: State, event: Event, e: string)
    requires event.Sync? || event.Upload? || event.Ack?
    ensures SightingsOf(event, e) == [] && RetiredAt(s, event, e) == None
  {
    hide SightingsIn;
  }

  lemma NothingContributes(s: State, event: Event, limit: nat, e: string)
    requires event.Sync? || event.Upload? || event.Ack?
    ensures Contribution(s, event, limit, e) == Tally(0, 0, 0) && Seen(s, event, limit, e) == []
  {
    hide Step, ExpectedFrom, Since, Sighted, SightingsIn, SightingsOf, RetiredAt;
    NothingHappens(s, event, e);
    NothingSeenFrom(Sighted(s, e), 0, e);
  }

  /** What a run counts for an entity: its sightings, and an interval for each time it is retired. */
  function Counted(s: State, trace: seq<Event>, limit: nat, e: string): Tally {
    if trace == [] then Tally(0, 0, 0)
    else Add(Counted(s, Init(trace), limit, e), Contribution(Run(s, Init(trace), limit), Last(trace), limit, e))
  }

  /**
    In every run, what has been counted for an entity over all its segments grows by exactly the intervals between its
    sightings and the intervals that end with a retirement, whether it is retired, dropped and seen again or not.
   */
  lemma {:induction false} RunCounts(s: State, trace: seq<Event>, limit: nat, e: string, part: Part)
    requires Valid(s) && e != ""
    ensures Accrued(Run(s, trace, limit), e, part) == Accrued(s, e, part) + Pick(Counted(s, trace, limit, e), part)
  {
    hide Step, Valid, Accrued, Contribution;
    if trace == [] {
    } else {
      RunCounts(s, Init(trace), limit, e, part);
      RunIsValid(s, Init(trace), limit);
      StepCounts(Run(s, Init(trace), limit), Last(trace), limit, e, part);
    }
  }

  /** What the sightings of an entity add up to in a run. */
  function BySightings(s: State, trace: seq<Event>, limit: nat, e: string): Tally {
    if trace == [] then Tally(0, 0, 0)
    else
      var before := Run(s, Init(trace), limit);
      Add(BySightings(s, Init(trace), limit, e), ExpectedFrom(Sighted(before, e), Seen(before, Last(trace), limit, e)))
  }

  /** No retirement in a run counts anything. */
  ghost predicate NoRetirementCounts(s: State, trace: seq<Event>, limit: nat, e: string, part: Part) {
    forall k | 0 <= k < |trace| :: Pick(RetirementAdds(Run(s, trace[..k], limit), trace[k], e), part) == 0
  }

  lemma NoRetirementSnoc(s: State, trace: seq<Event>, limit: nat, e: string, part: Part)
    requires trace != []
    ensures NoRetirementCounts(s, trace, limit, e, part) <==>
      NoRetirementCounts(s, Init(trace), limit, e, part) &&
      Pick(RetirementAdds(Run(s, Init(trace), limit), Last(trace), e), part) == 0
  {
    hide Run, RetirementAdds, Pick;
    var n := |trace| - 1;
    assert trace[..n] == Init(trace);
    forall k | 0 <= k < n ensures Init(trace)[..k] == trace[..k] {}
    if NoRetirementCounts(s, trace, limit, e, part) {
      forall k | 0 <= k < n
        ensures Pick(RetirementAdds(Run(s, Init(trace)[..k], limit), Init(trace)[k], e), part) == 0
      {
        assert Pick(RetirementAdds(Run(s, trace[..k], limit), trace[k], e), part) == 0;
      }
    }
    if NoRetirementCounts(s, Init(trace), limit, e, part) {
      forall k | 0 <= k < n ensures Pick(RetirementAdds(Run(s, trace[..k], limit), trace[k], e), part) == 0 {
        assert Pick(RetirementAdds(Run(s, Init(trace)[..k], limit), Init(trace)[k], e), part) == 0;
      }
    }
  }

  lemma PickOfSum(a: Tally, b: Tally, part: Part)
    ensures Pick(Add(a, b), part) == Pick(a, part) + Pick(b, part)
  {}

  lemma {:induction false} RetirementsAreExtra(s: State, trace: seq<Event>, limit: nat, e: string, part: Part)
    ensures Pick(BySightings(s, trace, limit, e), part) <= Pick(Counted(s, trace, limit, e), part)
    ensures Pick(BySightings(s, trace, limit, e), part) == Pick(Counted(s, trace, limit, e), part) <==>
      NoRetirementCounts(s, trace, limit, e, part)
  {
    hide Run, ExpectedFrom, RetirementAdds, Pick, Add, NoRetirementCounts, Sighted, Seen;
    if trace == [] {
      NothingRetires(s, limit, e, part);
    } else {
      var before, event := Run(s, Init(trace), limit), Last(trace);
      var seen := ExpectedFrom(Sighted(before, e), Seen(before, event, limit, e));
      RetirementsAreExtra(s, Init(trace), limit, e, part);
      NoRetirementSnoc(s, trace, limit, e, part);
      PickOfSum(Counted(s, Init(trace), limit, e), Contribution(before, event, limit, e), part);
      PickOfSum(seen, RetirementAdds(before, event, e), part);
      PickOfSum(BySightings(s, Init(trace), limit, e), seen, part);
    }
  }

  lemma NothingRetires(s: State, limit: nat, e: string, part: Part)
    ensures NoRetirementCounts(s, [], limit, e, part)
  {}

  /** A run counts exactly what the sightings add up to if and only if no retirement in it counts anything. */
  lemma RunCountsSightingsExactlyWhen(s: State, trace: seq<Event>, limit: nat, e: string, part: Part)
    requires Valid(s) && e != ""
    ensures Accrued(s, e, part) + Pick(BySightings(s, trace, limit, e), part) <= Accrued(Run(s, trace, limit), e, part)
    ensures Accrued(Run(s, trace, limit), e, part) == Accrued(s, e, part) + Pick(BySightings(s, trace, limit, e), part)
      <==> NoRetirementCounts(s, trace, limit, e, part)
  {
    hide Run, BySightings, Counted, NoRetirementCounts, Accrued, Valid;
    RunCounts(s, trace, limit, e, part);
    RetirementsAreExtra(s, trace, limit, e, part);
  }

  /**
    A retirement counts the interval since the last sighting and leaves that sighting in place, so that an entity
    that is seen again has the same time counted twice.
   */
  lemma ReappearanceCountsTwice(s: State, d: Descriptor, gone: int, back: int, limit: nat, part: Part)
    requires Valid(s) && d.entityId != "" && d.entityId in s.entities && !s.entities[d.entityId].retired
    ensures var e, entry := d.entityId, s.entities[d.entityId];
      Accrued(Run(s, [Remove(entry.deviceId, gone), Observe(d, back)], limit), e, part) ==
      Accrued(s, e, part) + Pick(Interval(SightingOf(entry), gone), part)
                          + Pick(Interval(SightingOf(entry), back), part)
  {
    hide Step, Accrued, Interval, Valid, SightingOf, RetireDevice, See;
    var e, entry := d.entityId, s.entities[d.entityId];
    var removal, sighting := Remove(entry.deviceId, gone), Observe(d, back);
    var after := Step(s, removal, limit);
    RunTwo(s, removal, sighting, limit);
    StepIsValid(s, removal, limit);
    RemoveCounts(s, entry.deviceId, gone, limit, e, part);
    RetirementContributes(s, gone, limit, e);
    ObserveCounts(after, d, back, limit, e, part);
    ObserveContributes(after, d, back, limit, e);
    RetirementIsNoSighting(s, entry.deviceId, gone, limit, e);
  }

  lemma RunTwo(s: State, a: Event, b: Event, limit: nat)
    ensures Run(s, [a, b], limit) == Step(Step(s, a, limit), b, limit)
  {
    hide Step;
    assert Init([a, b]) == [a] && Init([a]) == [];
    assert Run(s, [], limit) == s && Run(s, [a], limit) == Step(s, a, limit);
  }

  lemma RetirementContributes(s: State, now: int, limit: nat, e: string)
    requires e in s.entities && !s.entities[e].retired
    ensures Contribution(s, Remove(s.entities[e].deviceId, now), limit, e) == Interval(SightingOf(s.entities[e]), now)
  {
    hide Interval, SightingOf, RetireDevice;
    NothingSeenFrom(Sighted(s, e), now, e);
  }

  lemma RetirementIsNoSighting(s: State, deviceId: string, now: int, limit: nat, e: string)
    ensures Seen(s, Remove(deviceId, now), limit, e) == []
  {
    hide Step;
  }

  // ---------------------------------------------------------- error bound

  function Total(tally: Tally): nat {
    tally.on + tally.off + tally.unknown
  }

  /** Sum of the intervals between sightings, in seconds, each floored and capped. */
  function CappedSum(first: Sighting, seen: seq<Sighting>): nat {
    if seen == [] then 0
    else CappedSum(first, Init(seen)) + Elapsed(Latest(first, Init(seen)).at, Last(seen).at)
  }

  lemma {:induction false} ExpectedTotal(first: Sighting, seen: seq<Sighting>)
    ensures Total(Expected(first, seen)) == CappedSum(first, seen)
  {
    if seen == [] {
    } else {
      ExpectedTotal(first, Init(seen));
    }
  }

  /** Each sighting is at most a day after the one before. */
  predicate Steady(first: Sighting, seen: seq<Sighting>) {
    seen == [] ||
    (Steady(first, Init(seen)) && 0 <= Last(seen).at - Latest(first, Init(seen)).at <= MAX_INTERVAL_SECONDS * 1000)
  }

  lemma ElapsedIsClose(from: int, to: int)
    requires 0 <= to - from <= MAX_INTERVAL_SECONDS * 1000
    ensures to - from - 1000 < 1000 * Elapsed(from, to) <= to - from
  {}

  /** Over n intervals of at most a day, less than n seconds are lost, and none are gained. */
  lemma {:induction false} FlooringLosesLittle(first: Sighting, seen: seq<Sighting>)
    requires Steady(first, seen) && seen != []
    ensures var span, total := Latest(first, seen).at - first.at, Total(Expected(first, seen));
      span - 1000 * |seen| < 1000 * total <= span
  {
    hide Elapsed, Interval;
    ExpectedTotal(first, seen);
    ElapsedIsClose(Latest(first, Init(seen)).at, Last(seen).at);
    if |seen| > 1 {
      FlooringLosesLittle(first, Init(seen));
      ExpectedTotal(first, Init(seen));
    } else {
      assert Init(seen) == [];
    }
  }

  /**
    Intervals over ten minutes, and those after an unknown state, never count as on or off; others count as what was
    seen.
   */
  function Seconds10(first: Sighting, seen: seq<Sighting>, isOn: bool): nat {
    if seen == [] then 0
    else
      var from := Latest(first, Init(seen));
      var gap := Last(seen).at - from.at;
      Seconds10(first, Init(seen), isOn) +
      if from.known && from.isOn == isOn && 0 <= gap < 601000 then gap / 1000 else 0
  }

  lemma {:induction false} LongGapsAreUnknown(first: Sighting, seen: seq<Sighting>)
    ensures Expected(first, seen).on == Seconds10(first, seen, true)
    ensures Expected(first, seen).off == Seconds10(first, seen, false)
    ensures Expected(first, seen).on + Expected(first, seen).off <= 600 * |seen|
  {
    if seen == [] {
    } else {
      LongGapsAreUnknown(first, Init(seen));
    }
  }

  // ------------------------------------------------------ upload protocol

  /**
    A sync leaves nothing to upload, keeps the live counters, drops retired segments and brings the platform up to
    date.
   */
  lemma SyncIsExact(s: State, platform: map<Key, Tally>)
    requires Valid(s) && PlatformOk(s, platform)
    ensures var s', platform' := Acknowledge(s, Payload(s).Keys), platform + Payload(s);
      && Valid(s')
      && Payload(s') == map[]
      && s'.pending == []
      && s'.entities == SyncedEntities(s.entities)
      && platform' == Segments(s) == Segments(s')
      && PlatformOk(s', platform')
      && (forall k | k in platform && k in Payload(s) :: AtMost(platform[k], Payload(s)[k]))
  {
    var s', platform' := Acknowledge(s, Payload(s).Keys), platform + Payload(s);
    AcknowledgeKeepsSegments(s, Payload(s).Keys);
    SyncedPending(s);
    SyncedLive(s);
    SyncedPlatform(s, platform);
    NothingToSend(s');
    UpToDate(s', platform');
    forall k | k in platform && k in Payload(s) ensures AtMost(platform[k], Payload(s)[k]) {
      PayloadKeys(s, k);
    }
    hide Acknowledge, Segments, Payload, Valid, SyncedEntities;
  }

  /** What a sync leaves of the live entries: retired ones are gone, the others are no longer dirty. */
  function SyncedEntities(entities: map<string, Entry>): map<string, Entry> {
    map id | id in entities && !(entities[id].dirty && entities[id].retired) :: entities[id].(dirty := false)
  }

  lemma NothingToSend(s: State)
    requires Valid(s) && s.pending == [] && forall id | id in s.entities :: !s.entities[id].dirty
    ensures Payload(s) == map[]
  {}

  lemma SyncedPending(s: State)
    requires Valid(s)
    ensures Acknowledge(s, Payload(s).Keys).pending == []
  {
    hide Payload, Segments, PendingMap, LiveMap, KeptEntities, DroppedEntities, IsAcknowledged, DroppedPending,
         DistinctPending;
    var keys := Payload(s).Keys;
    forall i | 0 <= i < |s.pending| ensures KeyOf(s.pending[i].entityId, s.pending[i]) in keys {
      PendingKeys(s.pending, KeyOf(s.pending[i].entityId, s.pending[i]));
      PayloadKeys(s, KeyOf(s.pending[i].entityId, s.pending[i]));
    }
    NothingKept(s.pending, keys);
  }

  lemma SyncedLive(s: State)
    requires Valid(s)
    ensures Acknowledge(s, Payload(s).Keys).entities == SyncedEntities(s.entities)
  {
    var keys := Payload(s).Keys;
    forall id | id in s.entities ensures IsAcknowledged(id, s.entities[id], keys) == s.entities[id].dirty {
      PayloadKeys(s, KeyOf(id, s.entities[id]));
      LiveKeys(s.entities, KeyOf(id, s.entities[id]));
    }
    KeptWhenAllSent(s.entities, keys);
  }

  lemma KeptWhenAllSent(entities: map<string, Entry>, keys: set<Key>)
    requires forall id | id in entities :: IsAcknowledged(id, entities[id], keys) == entities[id].dirty
    ensures KeptEntities(entities, keys) == SyncedEntities(entities)
  {}

  lemma {:induction false} NothingKept(pending: seq<Entry>, keys: set<Key>)
    requires AllClosed(pending) && forall i | 0 <= i < |pending| :: KeyOf(pending[i].entityId, pending[i]) in keys
    ensures KeptPending(pending, keys) == []
  {
    if pending == [] {
    } else {
      assert AllClosed(Init(pending));
      NothingKept(Init(pending), keys);
    }
  }

  lemma SyncedRow(s: State, platform: map<Key, Tally>, k: Key)
    requires Valid(s) && PlatformOk(s, platform)
    ensures k in platform + Payload(s) <==> k in Segments(s)
    ensures k in Segments(s) ==> (platform + Payload(s))[k] == Segments(s)[k]
  {
    PayloadKeys(s, k);
    LiveKeys(s.entities, k);
    hide Payload, PendingMap, LiveMap;
  }

  lemma SyncedPlatform(s: State, platform: map<Key, Tally>)
    requires Valid(s) && PlatformOk(s, platform)
    ensures platform + Payload(s) == Segments(s)
  {
    hide Payload, Segments, Valid, PlatformOk;
    var platform', segments := platform + Payload(s), Segments(s);
    forall k ensures k in platform' <==> k in segments {
      SyncedRow(s, platform, k);
    }
    forall k | k in segments ensures platform'[k] == segments[k] {
      SyncedRow(s, platform, k);
    }
  }

  lemma UpToDate(s: State, platform: map<Key, Tally>)
    requires Valid(s) && platform == Segments(s)
    ensures PlatformOk(s, platform)
  {}

  /** The platform after a run: only uploads change it, each row replacing the one before. */
  function Platform(s: State, trace: seq<Event>, limit: nat, platform: map<Key, Tally>): map<Key, Tally> {
    if trace == [] then platform
    else
      var before := Platform(s, Init(trace), limit, platform);
      if Last(trace).Sync? || Last(trace).Upload? then before + Payload(Run(s, Init(trace), limit)) else before
  }

  /**
    Without late acknowledgements the platform is never ahead, and up to date for everything that will not be sent
    again.
   */
  lemma {:induction false} PlatformFollows(s: State, trace: seq<Event>, limit: nat, platform: map<Key, Tally>)
    requires Valid(s) && PlatformOk(s, platform)
    requires forall k | 0 <= k < |trace| :: !trace[k].Ack?
    ensures PlatformOk(Run(s, trace, limit), Platform(s, trace, limit, platform))
    ensures trace != [] && Last(trace).Sync? ==>
      Platform(s, trace, limit, platform) == Segments(Run(s, trace, limit)) && Payload(Run(s, trace, limit)) == map[]
  {
    hide PlatformOk, Segments, Payload, Acknowledge, Valid;
    if trace == [] {
    } else {
      var before, event := Run(s, Init(trace), limit), Last(trace);
      PlatformFollows(s, Init(trace), limit, platform);
      RunIsValid(s, Init(trace), limit);
      if event.Sync? {
        SyncIsExact(before, Platform(s, Init(trace), limit, platform));
      } else if event.Upload? {
        SyncedPlatform(before, Platform(s, Init(trace), limit, platform));
        UpToDate(before, Platform(s, Init(trace), limit, platform) + Payload(before));
      } else {
        StepGrows(before, event, limit);
        GrowingKeepsPlatform(before, Step(before, event, limit), Platform(s, Init(trace), limit, platform));
      }
    }
  }

  lemma StepGrows(s: State, event: Event, limit: nat)
    requires Valid(s) && !event.Sync? && !event.Ack?
    ensures Grows(s, Step(s, event, limit))
  {
    GrowsIsReflexive(s);
    match event
    case Observe(d, now) => SeeGrows(s, d, now, false);
    case Change(deviceId, ds, now) =>
      var after := SeeAll(s, ds, now, limit, |ds|);
      SeeAllIsValid(s, ds, now, limit, |ds|);
      SeeAllGrows(s, ds, now, limit, |ds|);
      RetireUnseenGrows(after, deviceId, Tracked(after, ds), now);
      GrowsIsTransitive(s, after, RetireUnseen(after, deviceId, Tracked(after, ds), now));
    case Upload =>
    case Remove(deviceId, now) =>
      RetirePendingIsIdle(s.pending, deviceId);
      RetireUnseenGrows(s, deviceId, {}, now);
  }

  /** After a sync the rows the platform holds for an entity add up to everything ever counted for it. */
  lemma PlatformSumsToAccrued(s: State, trace: seq<Event>, limit: nat, platform: map<Key, Tally>, e: string, part: Part)
    requires Valid(s) && PlatformOk(s, platform)
    requires trace != [] && Last(trace).Sync? && forall k | 0 <= k < |trace| :: !trace[k].Ack?
    ensures Seconds(Platform(s, trace, limit, platform), e, part) == Accrued(Run(s, trace, limit), e, part)
  {
    PlatformFollows(s, trace, limit, platform);
  }

  /**
    An acknowledgement at any time keeps the platform exact for all that is not marked to be sent, exactly when it has
    the present count of every acknowledged segment that still waits.  For an entity that is counted on this is
    restored by its next sighting; what is lost for good is said below.
   */
  lemma LateAckIsSafeExactlyWhen(s: State, platform: map<Key, Tally>, keys: set<Key>)
    requires Valid(s) && PlatformOk(s, platform)
    ensures PlatformOk(Acknowledge(s, keys), platform) <==>
      forall k | k in keys && k in Payload(s) :: k in platform && platform[k] == Payload(s)[k]
  {
    if PlatformOk(Acknowledge(s, keys), platform) {
      forall k | k in keys && k in Payload(s) ensures k in platform && platform[k] == Payload(s)[k] {
        LateAckNeeds(s, platform, keys, k);
      }
    }
    if forall k | k in keys && k in Payload(s) :: k in platform && platform[k] == Payload(s)[k] {
      LateAckSuffices(s, platform, keys);
    }
    hide Acknowledge, Payload, Segments, Valid, PlatformOk;
  }

  lemma LateAckSuffices(s: State, platform: map<Key, Tally>, keys: set<Key>)
    requires Valid(s) && PlatformOk(s, platform)
    requires forall k | k in keys && k in Payload(s) :: k in platform && platform[k] == Payload(s)[k]
    ensures PlatformOk(Acknowledge(s, keys), platform)
  {
    hide Acknowledge, Payload, Segments, Valid;
    var s' := Acknowledge(s, keys);
    AcknowledgeKeepsSegments(s, keys);
    forall k | k in s'.archived ensures k in platform && platform[k] == s'.archived[k] {
      ArchivedIsSent(s, platform, keys, k);
    }
    forall id | id in s'.entities && !s'.entities[id].dirty
      ensures KeyOf(id, s'.entities[id]) in platform && platform[KeyOf(id, s'.entities[id])] == s'.entities[id].tally
    {
      CleanIsSent(s, platform, keys, id);
    }
  }

  lemma ArchivedIsSent(s: State, platform: map<Key, Tally>, keys: set<Key>, k: Key)
    requires Valid(s) && PlatformOk(s, platform) && k in Acknowledge(s, keys).archived
    requires k in keys && k in Payload(s) ==> k in platform && platform[k] == Payload(s)[k]
    ensures k in platform && platform[k] == Acknowledge(s, keys).archived[k]
  {
    PendingSplit(s.pending, keys, k);
    LiveSplit(s.entities, keys, k);
    PayloadKeys(s, k);
    hide Payload, PendingMap, LiveMap, KeptPending, DroppedPending, KeptEntities, DroppedEntities, DistinctPending;
  }

  lemma CleanIsSent(s: State, platform: map<Key, Tally>, keys: set<Key>, id: string)
    requires Valid(s) && PlatformOk(s, platform) && id in Acknowledge(s, keys).entities &&
      !Acknowledge(s, keys).entities[id].dirty
    requires forall k | k in keys && k in Payload(s) :: k in platform && platform[k] == Payload(s)[k]
    ensures var entry := Acknowledge(s, keys).entities[id];
      KeyOf(id, entry) in platform && platform[KeyOf(id, entry)] == entry.tally
  {
    PayloadKeys(s, KeyOf(id, s.entities[id]));
    LiveKeys(s.entities, KeyOf(id, s.entities[id]));
    LiveIsSegment(s, id);
    hide Payload, PendingMap, LiveMap, Segments;
  }

  lemma LateAckNeeds(s: State, platform: map<Key, Tally>, keys: set<Key>, k: Key)
    requires Valid(s) && PlatformOk(Acknowledge(s, keys), platform) && k in keys && k in Payload(s)
    ensures k in platform && platform[k] == Payload(s)[k]
  {
    PayloadKeys(s, k);
    PendingSplit(s.pending, keys, k);
    LiveSplit(s.entities, keys, k);
    LiveKeys(s.entities, k);
    AcknowledgeKeepsSegments(s, keys);
  }

  // ----------------------------------------------------------- what is lost

  /** A segment that was dropped while the platform did not have its count. */
  predicate IsLost(s: State, platform: map<Key, Tally>, k: Key) {
    k in s.archived && !(k in platform && platform[k] == s.archived[k])
  }

  /** A segment that is not counted on: one that was left behind, or whose entity is retired. */
  predicate IsClosed(s: State, k: Key) {
    k in PendingMap(s.pending) || (k in LiveMap(s.entities) && s.entities[k.entityId].retired)
  }

  /** An acknowledgement of a closed segment that waits with a count the platform does not have. */
  predicate Loses(s: State, platform: map<Key, Tally>, keys: set<Key>, k: Key) {
    k in keys && k in Payload(s) && IsClosed(s, k) && !(k in platform && platform[k] == Payload(s)[k])
  }

  /**
    An acknowledgement drops the closed segments it names, with the counts they have, and keeps those dropped
    before.
   */
  lemma ArchivedAfter(s: State, keys: set<Key>, k: Key)
    requires Valid(s)
    ensures var after := Acknowledge(s, keys).archived;
      && (k in s.archived ==> k !in Payload(s) && k in after && after[k] == s.archived[k])
      && (k !in s.archived ==> (k in after <==> k in keys && k in Payload(s) && IsClosed(s, k)))
      && (k !in s.archived && k in after ==> after[k] == Payload(s)[k])
  {
    PendingSplit(s.pending, keys, k);
    LiveSplit(s.entities, keys, k);
    PayloadKeys(s, k);
    hide Payload, PendingMap, LiveMap, KeptPending, DroppedPending, KeptEntities, DroppedEntities, DistinctPending,
         AllClosed;
  }

  /** An acknowledgement loses exactly the closed segments it names whose present count the platform does not have. */
  lemma LostExactlyWhen(s: State, platform: map<Key, Tally>, keys: set<Key>, k: Key)
    requires Valid(s)
    ensures IsLost(Acknowledge(s, keys), platform, k) <==> IsLost(s, platform, k) || Loses(s, platform, keys, k)
  {
    hide Valid, Acknowledge, Payload, IsClosed;
    ArchivedAfter(s, keys, k);
  }

  lemma ArchivedIsNotSent(s: State, k: Key)
    requires Valid(s) && k in s.archived
    ensures k !in Payload(s)
  {
    hide *;
    ArchivedAfter(s, {}, k);
  }

  lemma StepKeepsArchive(s: State, event: Event, limit: nat, k: Key)
    requires Valid(s) && k in s.archived
    ensures k in Step(s, event, limit).archived && Step(s, event, limit).archived[k] == s.archived[k]
  {
    hide Acknowledge, Payload, Segments, MapGrows, See, DeviceChanged, RetireDevice, Valid, IsClosed;
    match event
    case Sync => ArchivedAfter(s, Payload(s).Keys, k);
    case Upload =>
    case Ack(keys) => ArchivedAfter(s, keys, k);
    case _ => StepGrows(s, event, limit);
  }

  /**
    A dropped segment is never counted on and never sent again: in every later run the platform's row stays as it
    is.
   */
  lemma {:induction false} DroppedIsFinal(s: State, trace: seq<Event>, limit: nat, platform: map<Key, Tally>, k: Key)
    requires Valid(s) && k in s.archived
    ensures var s', platform' := Run(s, trace, limit), Platform(s, trace, limit, platform);
      && k in s'.archived && s'.archived[k] == s.archived[k] && k !in Payload(s')
      && (k in platform' <==> k in platform) && (k in platform ==> platform'[k] == platform[k])
  {
    hide Valid, Step, Payload;
    if trace == [] {
      ArchivedIsNotSent(s, k);
    } else {
      var before := Run(s, Init(trace), limit);
      DroppedIsFinal(s, Init(trace), limit, platform, k);
      RunIsValid(s, Init(trace), limit);
      StepKeepsArchive(before, Last(trace), limit, k);
      StepIsValid(before, Last(trace), limit);
      ArchivedIsNotSent(Run(s, trace, limit), k);
    }
  }

  function PlatformStep(s: State, event: Event, platform: map<Key, Tally>): map<Key, Tally> {
    if event.Sync? || event.Upload? then platform + Payload(s) else platform
  }

  lemma UploadLosesNothing(s: State, platform: map<Key, Tally>, k: Key)
    requires Valid(s)
    ensures IsLost(s, platform + Payload(s), k) <==> IsLost(s, platform, k)
  {
    if k in s.archived {
      ArchivedIsNotSent(s, k);
    }
    hide Payload, Valid;
  }

  lemma StepLosesExactlyWhen(s: State, event: Event, limit: nat, platform: map<Key, Tally>, k: Key)
    requires Valid(s)
    ensures IsLost(Step(s, event, limit), PlatformStep(s, event, platform), k) <==>
      IsLost(s, platform, k) || (event.Ack? && Loses(s, platform, event.keys, k))
  {
    hide Acknowledge, Payload, Loses, Valid, Segments, MapGrows, See, DeviceChanged, RetireDevice;
    match event
    case Sync =>
      SyncLosesNothing(s, platform, k);
      UploadLosesNothing(s, platform, k);
      LostExactlyWhen(s, platform + Payload(s), Payload(s).Keys, k);
    case Upload => UploadLosesNothing(s, platform, k);
    case Ack(keys) => LostExactlyWhen(s, platform, keys, k);
    case _ => StepGrows(s, event, limit);
  }

  lemma SyncLosesNothing(s: State, platform: map<Key, Tally>, k: Key)
    ensures !Loses(s, platform + Payload(s), Payload(s).Keys, k)
  {
    hide Payload;
  }

  ghost predicate NothingIsLost(s: State, platform: map<Key, Tally>) {
    forall k :: !IsLost(s, platform, k)
  }

  /** The acknowledgement at a point of a run, if there is one, loses nothing. */
  ghost predicate AckIsSafe(s: State, trace: seq<Event>, limit: nat, platform: map<Key, Tally>, i: nat)
    requires i < |trace|
  {
    trace[i].Ack? ==>
      forall k :: !Loses(Run(s, trace[..i], limit), Platform(s, trace[..i], limit, platform), trace[i].keys, k)
  }

  /** A run loses nothing exactly if none of its acknowledgements does. */
  lemma {:induction false} RunLosesExactlyWhen(s: State, trace: seq<Event>, limit: nat, platform: map<Key, Tally>)
    requires Valid(s) && NothingIsLost(s, platform)
    ensures NothingIsLost(Run(s, trace, limit), Platform(s, trace, limit, platform)) <==>
      forall i | 0 <= i < |trace| :: AckIsSafe(s, trace, limit, platform, i)
  {
    hide Valid, Step, IsLost, Loses, Payload;
    if trace == [] {
    } else {
      var n, before := |trace| - 1, Init(trace);
      RunLosesExactlyWhen(s, before, limit, platform);
      RunIsValid(s, before, limit);
      assert trace[..n] == before;
      forall i | 0 <= i < n
        ensures AckIsSafe(s, trace, limit, platform, i) <==> AckIsSafe(s, before, limit, platform, i)
      {
        assert before[..i] == trace[..i];
      }
      forall k ensures IsLost(Run(s, trace, limit), Platform(s, trace, limit, platform), k) <==>
        || IsLost(Run(s, before, limit), Platform(s, before, limit, platform), k)
        || (Last(trace).Ack? && Loses(Run(s, before, limit), Platform(s, before, limit, platform), Last(trace).keys, k))
      {
        StepLosesExactlyWhen(Run(s, before, limit), Last(trace), limit, Platform(s, before, limit, platform), k);
      }
      assert NothingIsLost(Run(s, trace, limit), Platform(s, trace, limit, platform)) <==>
        NothingIsLost(Run(s, before, limit), Platform(s, before, limit, platform)) &&
          AckIsSafe(s, trace, limit, platform, n);
    }
  }

  lemma {:induction false} RunConcat(s: State, a: seq<Event>, b: seq<Event>, limit: nat, platform: map<Key, Tally>)
    ensures Run(s, a + b, limit) == Run(Run(s, a, limit), b, limit)
    ensures Platform(s, a + b, limit, platform) == Platform(Run(s, a, limit), b, limit, Platform(s, a, limit, platform))
  {
    hide Step, Payload;
    if b == [] {
      assert a + b == a;
    } else {
      assert Init(a + b) == a + Init(b);
      RunConcat(s, a, Init(b), limit, platform);
    }
  }

  lemma RunOne(s: State, event: Event, limit: nat, platform: map<Key, Tally>)
    ensures Run(s, [event], limit) == Step(s, event, limit)
    ensures Platform(s, [event], limit, platform) == PlatformStep(s, event, platform)
  {
    assert Init([event]) == [];
    hide Step, Payload;
  }

  lemma {:induction false} NoUpload(s: State, trace: seq<Event>, limit: nat, platform: map<Key, Tally>)
    requires forall i | 0 <= i < |trace| :: !trace[i].Sync? && !trace[i].Upload?
    ensures Platform(s, trace, limit, platform) == platform
  {
    if trace == [] {
    } else {
      NoUpload(s, Init(trace), limit, platform);
    }
  }

  /** An acknowledgement that loses a segment: its row stays behind the count in every later run. */
  lemma LostForGood(s: State, keys: set<Key>, rest: seq<Event>, limit: nat, platform: map<Key, Tally>, k: Key)
    requires Valid(s) && Loses(s, platform, keys, k)
    ensures var s', platform' := Run(s, [Ack(keys)] + rest, limit), Platform(s, [Ack(keys)] + rest, limit, platform);
      && k in Segments(s') && Segments(s')[k] == Payload(s)[k]
      && (k in platform' <==> k in platform) && (k in platform ==> platform'[k] == platform[k] != Segments(s')[k])
  {
    hide Acknowledge, IsClosed, Payload, Segments, PendingMap, LiveMap, Run, Platform, Valid, Loses;
    var after := Acknowledge(s, keys);
    LostAtOnce(s, keys, platform, k);
    RunConcat(s, [Ack(keys)], rest, limit, platform);
    RunOne(s, Ack(keys), limit, platform);
    AcknowledgeKeepsSegments(s, keys);
    DroppedIsFinal(after, rest, limit, platform, k);
    RunIsValid(after, rest, limit);
    ArchivedIsCounted(Run(after, rest, limit), k);
  }

  lemma LostAtOnce(s: State, keys: set<Key>, platform: map<Key, Tally>, k: Key)
    requires Valid(s) && Loses(s, platform, keys, k)
    ensures var after := Acknowledge(s, keys);
      k in after.archived && after.archived[k] == Payload(s)[k] && (k in platform ==> platform[k] != Payload(s)[k])
  {
    hide Valid, Acknowledge, Payload, IsClosed;
    ArchivedAfter(s, keys, k);
  }

  lemma ArchivedIsCounted(s: State, k: Key)
    requires Valid(s) && k in s.archived
    ensures k in Segments(s) && Segments(s)[k] == s.archived[k]
  {}

  /** An upload, what happens before its acknowledgement, the acknowledgement, and what happens later. */
  function LateAck(s: State, between: seq<Event>, rest: seq<Event>): seq<Event> {
    [Upload] + between + ([Ack(Payload(s).Keys)] + rest)
  }

  /** After a run the platform has one count for a segment, and the hub has counted another. */
  ghost predicate StaysBehind(s: State, trace: seq<Event>, limit: nat, platform: map<Key, Tally>, k: Key, sent: Tally,
                              counted: Tally) {
    var s', platform' := Run(s, trace, limit), Platform(s, trace, limit, platform);
    k in platform' && platform'[k] == sent && k in Segments(s') && Segments(s')[k] == counted && sent != counted
  }

  /**
    A segment that is counted on and then closed between its upload and the acknowledgement: the platform keeps the
    uploaded count in every later run, whatever is sighted, uploaded and acknowledged.
   */
  lemma ClosedBeforeAckIsLost(s: State, between: seq<Event>, rest: seq<Event>, limit: nat, platform: map<Key, Tally>,
                              k: Key)
    requires Valid(s) && k in Payload(s)
    requires forall i | 0 <= i < |between| :: !between[i].Sync? && !between[i].Upload?
    requires var s1 := Run(s, between, limit); IsClosed(s1, k) && k in Payload(s1) && Payload(s1)[k] != Payload(s)[k]
    ensures StaysBehind(s, LateAck(s, between, rest), limit, platform, k,
                        Payload(s)[k], Payload(Run(s, between, limit))[k])
  {
    hide Step, Payload, Segments, IsClosed, Valid;
    var s1, sent := Run(s, between, limit), platform + Payload(s);
    RunConcat(s, [Upload] + between, [Ack(Payload(s).Keys)] + rest, limit, platform);
    RunConcat(s, [Upload], between, limit, platform);
    RunOne(s, Upload, limit, platform);
    UploadIsIdle(s, limit);
    NoUpload(s, between, limit, sent);
    RunIsValid(s, between, limit);
    LostForGood(s1, Payload(s).Keys, rest, limit, sent, k);
  }

  lemma ChangeBeforeAckIsLost(s: State, event: Event, rest: seq<Event>, limit: nat, platform: map<Key, Tally>, k: Key,
                              sent: Tally, counted: Tally)
    requires Valid(s) && !event.Sync? && !event.Upload? && sent != counted
    requires k in Payload(s) && Payload(s)[k] == sent
    requires var s1 := Step(s, event, limit); IsClosed(s1, k) && k in Payload(s1) && Payload(s1)[k] == counted
    ensures StaysBehind(s, LateAck(s, [event], rest), limit, platform, k, sent, counted)
  {
    hide *;
    var between := [event];
    RunOne(s, event, limit, platform);
    ClosedBeforeAckIsLost(s, between, rest, limit, platform, k);
  }

  lemma UploadIsIdle(s: State, limit: nat)
    ensures Step(s, Upload, limit) == s
  {}

  lemma AccrueChanges(entry: Entry, now: int)
    requires Elapsed(entry.lastSeenAt, now) > 0
    ensures Accrue(entry, now).tally == Add(entry.tally, Interval(SightingOf(entry), now)) != entry.tally
  {}

  lemma ObserveSees(s: State, d: Descriptor, now: int, limit: nat)
    requires d.entityId != ""
    ensures Step(s, Observe(d, now), limit) == See(s, d, now, false)
  {}

  lemma RemoveRetires(s: State, deviceId: string, now: int, limit: nat)
    ensures Step(s, Remove(deviceId, now), limit) == RetireDevice(s, deviceId, now)
  {}

  /**
    If a light changes area between an upload and its acknowledgement, what was counted in between never reaches the
    platform.
   */
  lemma RollBeforeAckLoses(s: State, d: Descriptor, now: int, rest: seq<Event>, limit: nat, platform: map<Key, Tally>)
    requires Valid(s) && d.entityId != "" && d.entityId in s.entities
    requires var entry := s.entities[d.entityId]; entry.dirty && !entry.retired && entry.areaId != d.areaId
    requires Elapsed(s.entities[d.entityId].lastSeenAt, now) > 0
    ensures var entry := s.entities[d.entityId];
      StaysBehind(s, LateAck(s, [Observe(d, now)], rest), limit, platform, KeyOf(d.entityId, entry),
                  entry.tally, Add(entry.tally, Interval(SightingOf(entry), now)))
  {
    var entry, k := s.entities[d.entityId], KeyOf(d.entityId, s.entities[d.entityId]);
    hide *;
    LiveRow(s, d.entityId);
    RolledSegment(s, d, now);
    AccrueChanges(entry, now);
    ObserveSees(s, d, now, limit);
    ChangeBeforeAckIsLost(s, Observe(d, now), rest, limit, platform, k, entry.tally, Accrue(entry, now).tally);
  }

  /** The same if the light's device is removed in between. */
  lemma RemovalBeforeAckLoses(s: State, e: string, now: int, rest: seq<Event>, limit: nat, platform: map<Key, Tally>)
    requires Valid(s) && e in s.entities && s.entities[e].dirty && !s.entities[e].retired
    requires Elapsed(s.entities[e].lastSeenAt, now) > 0
    ensures var entry := s.entities[e];
      StaysBehind(s, LateAck(s, [Remove(entry.deviceId, now)], rest), limit, platform, KeyOf(e, entry),
                  entry.tally, Add(entry.tally, Interval(SightingOf(entry), now)))
  {
    var entry, k := s.entities[e], KeyOf(e, s.entities[e]);
    hide *;
    LiveRow(s, e);
    RetiredSegment(s, e, now);
    AccrueChanges(entry, now);
    RemoveRetires(s, entry.deviceId, now, limit);
    ChangeBeforeAckIsLost(s, Remove(entry.deviceId, now), rest, limit, platform, k, entry.tally,
                          Accrue(entry, now).tally);
  }

  /** A changed live entry is in the payload with its count. */
  lemma LiveRow(s: State, id: string)
    requires Valid(s) && id in s.entities && s.entities[id].dirty
    ensures var k := KeyOf(id, s.entities[id]); k in Payload(s) && Payload(s)[k] == s.entities[id].tally
  {
    PayloadKeys(s, KeyOf(id, s.entities[id]));
    LiveIsSegment(s, id);
    LiveKeys(s.entities, KeyOf(id, s.entities[id]));
    hide Payload, Segments;
  }

  /** The segment a light leaves behind waits closed, with the interval added. */
  lemma RolledSegment(s: State, d: Descriptor, now: int)
    requires Valid(s) && d.entityId in s.entities && !s.entities[d.entityId].retired &&
      s.entities[d.entityId].areaId != d.areaId
    ensures var k, s' := KeyOf(d.entityId, s.entities[d.entityId]), See(s, d, now, false);
      IsClosed(s', k) && k in Payload(s') && Payload(s')[k] == Accrue(s.entities[d.entityId], now).tally
  {
    var id := d.entityId;
    var closed := Retire(s.entities[id], now);
    var k, s' := KeyOf(id, closed), See(s, d, now, false);
    SeeIsValid(s, d, now, false);
    CloseMaps(s, id, closed);
    PayloadKeys(s', k);
  }

  /** The segment of a removed device waits closed, with the interval added. */
  lemma RetiredSegment(s: State, e: string, now: int)
    requires Valid(s) && e in s.entities && !s.entities[e].retired
    ensures var k, s' := KeyOf(e, s.entities[e]), RetireDevice(s, s.entities[e].deviceId, now);
      IsClosed(s', k) && k in Payload(s') && Payload(s')[k] == Accrue(s.entities[e], now).tally
  {
    var deviceId := s.entities[e].deviceId;
    RetireUnseenIsValid(s, deviceId, {}, now);
    RetirePendingIsIdle(s.pending, deviceId);
    LiveRow(RetireDevice(s, deviceId, now), e);
    LiveKeys(RetireDevice(s, deviceId, now).entities, KeyOf(e, s.entities[e]));
    hide Payload, Valid;
  }

  /** The platform has the present count of every entity that is not marked as changed. */
  ghost predicate CleanIsExact(s: State, platform: map<Key, Tally>) {
    forall id | id in s.entities && !s.entities[id].dirty ::
      KeyOf(id, s.entities[id]) in platform && platform[KeyOf(id, s.entities[id])] == s.entities[id].tally
  }

  /**
    An upload brings the platform up to date with everything ever counted exactly if nothing was lost before and no
    entity counted on since its last upload has been unmarked.  A sighting marks its entity again, so what a late
    acknowledgement unmarks is repaired by the next sighting and upload.
   */
  lemma UploadRestoresExactlyWhen(s: State, platform: map<Key, Tally>)
    requires Valid(s) && forall k | k in platform :: k in Segments(s)
    ensures platform + Payload(s) == Segments(s) <==> NothingIsLost(s, platform) && CleanIsExact(s, platform)
  {
    hide Payload, Segments, Valid;
    var uploaded := platform + Payload(s);
    forall k ensures k in uploaded ==> k in Segments(s) {
      PayloadKeys(s, k);
    }
    if uploaded == Segments(s) {
      forall k ensures !IsLost(s, platform, k) {
        if k in s.archived {
          ArchivedIsNotSent(s, k);
          ArchivedIsCounted(s, k);
        }
      }
      forall id | id in s.entities && !s.entities[id].dirty
        ensures KeyOf(id, s.entities[id]) in platform && platform[KeyOf(id, s.entities[id])] == s.entities[id].tally
      {
        CleanIsNotSent(s, id);
      }
    }
    if NothingIsLost(s, platform) && CleanIsExact(s, platform) {
      forall k | k in Segments(s) ensures k in uploaded && uploaded[k] == Segments(s)[k] {
        UploadedRow(s, platform, k);
      }
    }
  }

  lemma CleanIsNotSent(s: State, id: string)
    requires Valid(s) && id in s.entities && !s.entities[id].dirty
    ensures var k := KeyOf(id, s.entities[id]);
      k !in Payload(s) && k in Segments(s) && Segments(s)[k] == s.entities[id].tally
  {
    PayloadKeys(s, KeyOf(id, s.entities[id]));
    LiveIsSegment(s, id);
    LiveKeys(s.entities, KeyOf(id, s.entities[id]));
    hide Payload;
  }

  lemma UploadedRow(s: State, platform: map<Key, Tally>, k: Key)
    requires Valid(s) && NothingIsLost(s, platform) && CleanIsExact(s, platform) && k in Segments(s)
    ensures k in platform + Payload(s) && (platform + Payload(s))[k] == Segments(s)[k]
  {
    PayloadKeys(s, k);
    if k !in Payload(s) {
      hide Payload;
      if k in s.archived {
        assert !IsLost(s, platform, k);
        ArchivedIsCounted(s, k);
      } else {
        LiveKeys(s.entities, k);
        CleanIsNotSent(s, k.entityId);
      }
    }
  }

  /** An upload that is acknowledged before anything else happens is a sync. */
  lemma UploadThenAckIsSync(s: State, limit: nat, platform: map<Key, Tally>)
    ensures Run(s, [Upload, Ack(Payload(s).Keys)], limit) == Run(s, [Sync], limit)
    ensures Platform(s, [Upload, Ack(Payload(s).Keys)], limit, platform) == Platform(s, [Sync], limit, platform)
  {
    hide Payload, Acknowledge;
    var both := [Upload] + [Ack(Payload(s).Keys)];
    assert both == [Upload, Ack(Payload(s).Keys)];
    RunConcat(s, [Upload], [Ack(Payload(s).Keys)], limit, platform);
    RunOne(s, Upload, limit, platform);
    RunOne(s, Ack(Payload(s).Keys), limit, platform + Payload(s));
    RunOne(s, Sync, limit, platform);
  }
}
