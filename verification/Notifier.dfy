/**
  The state-change notifier: one pending notification per entity, delivered by a chain of attempts with
  back-off.  A delivery is split into start, success and failure, and these steps of different chains interleave
  in any order.  Times are integer milliseconds.
 */
module Notifier {
  import opened Prelude

  const QUIET_MS := 1000
  const MAX_ATTEMPTS: nat := 3

  /** A chain waits for its timer, or has a request under way for the item it found pending. */
  datatype Phase = Scheduled(due: int) | InFlight(item: nat)
  datatype Chain = Chain(key: string, phase: Phase)

  datatype Ending = Delivered(at: int) | Dropped

  /**
    An accepted notification: its failures so far, and, as history, when it was accepted and tried and how it ended.
   */
  datatype Item = Item(key: string, attempts: nat, acceptedAt: int, startedAt: seq<int>, ending: Option<Ending>)

  /** Items are numbered in the order in which they are accepted, and chains by the item they are made for. */
  datatype State = State(
    pending: map<string, nat>, items: seq<Item>, lastSent: map<string, int>, chains: map<nat, Chain>,
    sent: nat, deduped: nat, failed: nat, dropped: nat)

  datatype Event =
    | Enqueue(key: string, now: int)
    | Start(chain: nat, now: int)
    | Succeed(chain: nat, now: int)
    | Fail(chain: nat, now: int)

  const INITIAL := State(map[], [], map[], map[], 0, 0, 0, 0)

  // ---------------------------------------------------------------- steps

  function Backoff(attempts: nat): int
    requires attempts >= 1
  {
    250 * Power2(attempts - 1)
  }

  function LastSent(s: State, key: string): int {
    if key in s.lastSent then s.lastSent[key] else 0
  }

  function Accept(s: State, key: string, now: int): State {
    s.(pending := s.pending[key := |s.items|], items := s.items + [Item(key, 0, now, [], None)],
       chains := s.chains[|s.items| := Chain(key, Scheduled(now))])
  }

  predicate IsRepeat(s: State, key: string, now: int) {
    now - LastSent(s, key) < QUIET_MS || key in s.pending
  }

  function DoEnqueue(s: State, key: string, now: int): State {
    if key == "" then s
    else if IsRepeat(s, key, now) then s.(deduped := s.deduped + 1)
    else Accept(s, key, now)
  }

  /** A timer fires no earlier than it was set for. */
  predicate CanStart(s: State, chain: nat, now: int) {
    chain in s.chains && s.chains[chain].phase.Scheduled? && s.chains[chain].phase.due <= now
  }

  /** A chain with a request under way, for an item that exists. */
  predicate IsUnderWay(s: State, chain: nat) {
    chain in s.chains && s.chains[chain].phase.InFlight? && s.chains[chain].phase.item < |s.items|
  }

  function Started(item: Item, now: int): Item {
    item.(startedAt := item.startedAt + [now])
  }

  function DoStart(s: State, chain: nat, now: int): State {
    if !CanStart(s, chain, now) then s
    else
      var key := s.chains[chain].key;
      if key !in s.pending || s.pending[key] >= |s.items| then s.(chains := s.chains - {chain})
      else
        var item := s.pending[key];
        s.(chains := s.chains[chain := Chain(key, InFlight(item))],
           items := s.items[item := Started(s.items[item], now)])
  }

  function DoSucceed(s: State, chain: nat, now: int): State
    requires IsUnderWay(s, chain)
  {
    var key, item := s.chains[chain].key, s.chains[chain].phase.item;
    s.(pending := s.pending - {key}, lastSent := s.lastSent[key := now], sent := s.sent + 1,
       chains := s.chains - {chain}, items := s.items[item := s.items[item].(ending := Some(Delivered(now)))])
  }

  function DoFail(s: State, chain: nat, now: int): State
    requires IsUnderWay(s, chain)
  {
    var key, item := s.chains[chain].key, s.chains[chain].phase.item;
    var attempts := s.items[item].attempts + 1;
    var counted := s.items[item].(attempts := attempts);
    if attempts >= MAX_ATTEMPTS then
      s.(pending := s.pending - {key}, failed := s.failed + 1, dropped := s.dropped + 1,
         chains := s.chains - {chain}, items := s.items[item := counted.(ending := Some(Dropped))])
    else
      s.(failed := s.failed + 1, chains := s.chains[chain := Chain(key, Scheduled(now + Backoff(attempts)))],
         items := s.items[item := counted])
  }

  /** Steps of chains that cannot take them change nothing. */
  function Step(s: State, event: Event): State {
    match event
    case Enqueue(key, now) => DoEnqueue(s, key, now)
    case Start(chain, now) => DoStart(s, chain, now)
    case Succeed(chain, now) => if IsUnderWay(s, chain) then DoSucceed(s, chain, now) else s
    case Fail(chain, now) => if IsUnderWay(s, chain) then DoFail(s, chain, now) else s
  }

  function Run(trace: seq<Event>): State {
    if trace == [] then INITIAL else Step(Run(Init(trace)), Last(trace))
  }

  /** The clock starts at zero or later and does not go back. */
  ghost predicate InOrder(trace: seq<Event>) {
    && (forall i | 0 <= i < |trace| :: 0 <= trace[i].now)
    && (forall i, j | 0 <= i < j < |trace| :: trace[i].now <= trace[j].now)
  }

  function Clock(trace: seq<Event>): int {
    if trace == [] then 0 else Last(trace).now
  }

  // ------------------------------------------------------------ invariants

  predicate ChainLinked(s: State, c: nat)
    requires c in s.chains
  {
    var chain := s.chains[c];
    && chain.key in s.pending && s.pending[chain.key] == c
    && (chain.phase.InFlight? ==> chain.phase.item == c)
  }

  predicate KeyLinked(s: State, key: string)
    requires key in s.pending
  {
    var i := s.pending[key];
    && i < |s.items| && s.items[i].key == key && s.items[i].ending.None?
    && i in s.chains && s.chains[i].key == key
  }

  predicate ItemLinked(s: State, i: nat)
    requires i < |s.items|
  {
    s.items[i].ending.None? ==> s.items[i].key in s.pending && s.pending[s.items[i].key] == i
  }

  /** Chains, pending keys and unended items belong to each other one to one. */
  ghost predicate Linked(s: State) {
    && (forall c | c in s.chains :: ChainLinked(s, c))
    && (forall k | k in s.pending :: KeyLinked(s, k))
    && (forall i | 0 <= i < |s.items| :: ItemLinked(s, i))
  }

  /** Attempts follow each other by at least the back-off; there are never more than three. */
  predicate ItemOk(item: Item, clock: int) {
    && item.acceptedAt <= clock
    && (forall n | 0 <= n < |item.startedAt| :: item.acceptedAt <= item.startedAt[n] <= clock)
    && (forall n | 1 <= n < |item.startedAt| :: item.startedAt[n] - item.startedAt[n - 1] >= Backoff(n))
    && match item.ending
       case None => item.attempts < MAX_ATTEMPTS
       case Some(Delivered(at)) =>
         item.attempts < MAX_ATTEMPTS && |item.startedAt| == item.attempts + 1 && Last(item.startedAt) <= at <= clock
       case Some(Dropped) => item.attempts == MAX_ATTEMPTS == |item.startedAt|
  }

  /** A chain that waits has seen all its attempts fail; one with a request has one attempt more. */
  predicate ChainOk(chain: Chain, item: Item) {
    match chain.phase
    case Scheduled(due) =>
      && |item.startedAt| == item.attempts && item.acceptedAt <= due
      && (item.attempts >= 1 ==> due - Last(item.startedAt) >= Backoff(item.attempts))
    case InFlight(_) => |item.startedAt| == item.attempts + 1
  }

  ghost predicate Progress(s: State, clock: int) {
    && (forall i | 0 <= i < |s.items| :: ItemOk(s.items[i], clock))
    && (forall c | c in s.chains && c < |s.items| :: ChainOk(s.chains[c], s.items[c]))
  }

  /** Items of one key follow each other, and after a delivery the key is left alone for a second. */
  ghost predicate Quiet(s: State) {
    && (forall i | 0 <= i < |s.items| && s.items[i].ending.Some? && s.items[i].ending.value.Delivered? ::
          s.items[i].key in s.lastSent && s.items[i].ending.value.at <= s.lastSent[s.items[i].key])
    && (forall i, j | 0 <= i < j < |s.items| && s.items[i].key == s.items[j].key :: Follows(s.items[i], s.items[j]))
  }

  predicate WasDelivered(s: State, key: string, at: int) {
    exists i :: 0 <= i < |s.items| && s.items[i].key == key && s.items[i].ending == Some(Delivered(at))
  }

  /** The remembered times of delivery are times of delivery. */
  ghost predicate Remembered(s: State) {
    forall k | k in s.lastSent :: WasDelivered(s, k, s.lastSent[k])
  }

  /** `later` was accepted after `earlier` ended, and not within a second of its delivery. */
  predicate Follows(earlier: Item, later: Item) {
    && earlier.ending.Some?
    && (earlier.ending.value.Delivered? ==> later.acceptedAt - earlier.ending.value.at >= QUIET_MS)
  }

  function Failures(item: Item): nat {
    item.attempts
  }

  function IsSent(item: Item): nat {
    if item.ending.Some? && item.ending.value.Delivered? then 1 else 0
  }

  function IsDropped(item: Item): nat {
    if item.ending == Some(Dropped) then 1 else 0
  }

  function Total(items: seq<Item>, f: Item -> nat): nat {
    if items == [] then 0 else Total(Init(items), f) + f(Last(items))
  }

  ghost predicate Counted(s: State) {
    && |s.items| == s.sent + s.dropped + |s.pending|
    && s.failed == Total(s.items, Failures)
    && s.sent == Total(s.items, IsSent)
    && s.dropped == Total(s.items, IsDropped)
  }

  ghost predicate Sound(s: State, clock: int) {
    Linked(s) && Progress(s, clock) && Quiet(s) && Remembered(s) && Counted(s)
  }

  // ------------------------------------------------------------- each step

  /** An event that has an effect takes on a new item, goes on with one, or ends one. */
  datatype Change = Idle | Taken | Kept(c: nat) | Ended(c: nat)

  function ChangeOf(s: State, e: Event): Change {
    match e
    case Enqueue(key, now) => if key != "" && !IsRepeat(s, key, now) then Taken else Idle
    case Start(c, now) => if CanStart(s, c, now) then Kept(c) else Idle
    case Succeed(c, _) => if IsUnderWay(s, c) then Ended(c) else Idle
    case Fail(c, _) =>
      if !IsUnderWay(s, c) then Idle
      else if s.items[s.chains[c].phase.item].attempts + 1 >= MAX_ATTEMPTS then Ended(c) else Kept(c)
  }

  /** An item goes on: only it and its chain change. */
  predicate GoesOn(s: State, s': State, c: nat) {
    && c in s.chains && ChainLinked(s, c) && KeyLinked(s, s.chains[c].key) && c in s'.chains && |s'.items| == |s.items|
    && s' == s.(chains := s.chains[c := s'.chains[c]], items := s.items[c := s'.items[c]], failed := s'.failed)
    && s'.chains[c].key == s.chains[c].key && (s'.chains[c].phase.InFlight? ==> s'.chains[c].phase.item == c)
    && s'.items[c].key == s.items[c].key && s'.items[c].acceptedAt == s.items[c].acceptedAt && s'.items[c].ending.None?
  }

  /** An item ends: it is no longer pending and its chain is gone. */
  predicate Ends(s: State, s': State, c: nat) {
    && c in s.chains && ChainLinked(s, c) && KeyLinked(s, s.chains[c].key) && |s'.items| == |s.items|
    && s' == s.(chains := s.chains - {c}, items := s.items[c := s'.items[c]], pending := s.pending - {s.chains[c].key},
                lastSent := s'.lastSent, sent := s'.sent, failed := s'.failed, dropped := s'.dropped)
    && s'.items[c].key == s.items[c].key && s'.items[c].acceptedAt == s.items[c].acceptedAt && s'.items[c].ending.Some?
    && s'.lastSent == match s'.items[c].ending.value
                      case Delivered(at) => s.lastSent[s.chains[c].key := at]
                      case Dropped => s.lastSent
  }

  /** What a step does to the links between chains, keys and items. */
  lemma StepChanges(s: State, e: Event)
    requires Linked(s)
    ensures var s' := Step(s, e);
      match ChangeOf(s, e)
      case Idle => s' == s.(deduped := s'.deduped)
      case Taken => s' == Accept(s, e.key, e.now) && e.key !in s.pending
      case Kept(c) => GoesOn(s, s', c)
      case Ended(c) => Ends(s, s', c) && s'.items[c].ending == Some(if e.Succeed? then Delivered(e.now) else Dropped)
  {
    if !e.Enqueue? && e.chain in s.chains {
      assert ChainLinked(s, e.chain);
      assert KeyLinked(s, s.chains[e.chain].key);
    }
  }

  lemma TakingIsLinked(s: State, key: string, now: int)
    requires Linked(s) && key !in s.pending
    ensures Linked(Accept(s, key, now))
  {
    var s' := Accept(s, key, now);
    forall c | c in s'.chains ensures ChainLinked(s', c) {
      assert c in s.chains ==> ChainLinked(s, c);
    }
    forall k | k in s'.pending ensures KeyLinked(s', k) {
      assert k in s.pending ==> KeyLinked(s, k);
    }
    forall i | 0 <= i < |s'.items| ensures ItemLinked(s', i) {
      assert i < |s.items| ==> ItemLinked(s, i);
    }
  }

  lemma GoingOnIsLinked(s: State, s': State, c: nat)
    requires Linked(s) && GoesOn(s, s', c)
    ensures Linked(s')
  {
    forall d | d in s'.chains ensures ChainLinked(s', d) {
      assert ChainLinked(s, d);
    }
    forall k | k in s'.pending ensures KeyLinked(s', k) {
      assert KeyLinked(s, k);
    }
    forall i | 0 <= i < |s'.items| ensures ItemLinked(s', i) {
      assert ItemLinked(s, i);
    }
  }

  lemma EndingIsLinked(s: State, s': State, c: nat)
    requires Linked(s) && Ends(s, s', c)
    ensures Linked(s')
  {
    forall d | d in s'.chains ensures ChainLinked(s', d) {
      assert ChainLinked(s, d);
      assert ChainLinked(s, c);
    }
    forall k | k in s'.pending ensures KeyLinked(s', k) {
      assert KeyLinked(s, k);
    }
    forall i | 0 <= i < |s'.items| ensures ItemLinked(s', i) {
      assert ItemLinked(s, i);
    }
  }

  lemma StepIsLinked(s: State, e: Event)
    requires Linked(s)
    ensures Linked(Step(s, e))
  {
    var s' := Step(s, e);
    StepChanges(s, e);
    hide Step, ChainLinked, KeyLinked, ItemLinked, Accept, GoesOn, Ends;
    match ChangeOf(s, e)
    case Idle => IdleIsLinked(s, s'.deduped);
    case Taken => TakingIsLinked(s, e.key, e.now);
    case Kept(c) => GoingOnIsLinked(s, s', c);
    case Ended(c) => EndingIsLinked(s, s', c);
  }

  lemma IdleIsLinked(s: State, deduped: nat)
    requires Linked(s)
    ensures Linked(s.(deduped := deduped))
  {
    var s' := s.(deduped := deduped);
    assert forall c | c in s.chains :: ChainLinked(s, c) == ChainLinked(s', c);
    assert forall k | k in s.pending :: KeyLinked(s, k) == KeyLinked(s', k);
    assert forall i | 0 <= i < |s.items| :: ItemLinked(s, i) == ItemLinked(s', i);
  }

  /** The item of a chain that takes a step, and the chain, stay as they should be. */
  lemma TurnProgresses(s: State, e: Event, c: nat, clock: int)
    requires Linked(s) && ChangeOf(s, e) in {Kept(c), Ended(c)} && c in s.chains && c < |s.items|
    requires ItemOk(s.items[c], clock) && ChainOk(s.chains[c], s.items[c]) && clock <= e.now
    ensures var s' := Step(s, e);
      && |s'.items| == |s.items| && ItemOk(s'.items[c], e.now)
      && (c in s'.chains ==> ChainOk(s'.chains[c], s'.items[c]))
  {
    hide Linked, GoesOn, Ends, Backoff, IsRepeat, Accept, ItemOk;
    TurnIsLinked(s, c);
    StepChanges(s, e);
    var item := s.items[c];
    if e.Start? {
      StartProgresses(item, s.chains[c].phase.due, clock, e.now);
    } else {
      AnswerProgresses(item, clock, e.now);
    }
  }

  lemma TurnIsLinked(s: State, c: nat)
    requires Linked(s) && c in s.chains
    ensures ChainLinked(s, c) && KeyLinked(s, s.chains[c].key)
  {}

  /** The answer to an item's request: it is delivered, fails for good or waits for another attempt. */
  lemma AnswerProgresses(item: Item, clock: int, now: int)
    requires ItemOk(item, clock) && item.ending.None? && clock <= now && |item.startedAt| == item.attempts + 1
    ensures ItemOk(item.(ending := Some(Delivered(now))), now)
    ensures var failed := item.(attempts := item.attempts + 1);
      if failed.attempts >= MAX_ATTEMPTS then ItemOk(failed.(ending := Some(Dropped)), now)
      else ItemOk(failed, now) && ChainOk(Chain(item.key, Scheduled(now + Backoff(failed.attempts))), failed)
  {}

  lemma StartProgresses(item: Item, due: int, clock: int, now: int)
    requires ItemOk(item, clock) && item.ending.None? && clock <= now && due <= now
    requires |item.startedAt| == item.attempts && item.acceptedAt <= due
    requires item.attempts >= 1 ==> due - Last(item.startedAt) >= Backoff(item.attempts)
    ensures ItemOk(Started(item, now), now)
  {}

  lemma TakingProgresses(s: State, key: string, now: int, clock: int)
    requires Linked(s) && Progress(s, clock) && clock <= now
    ensures Progress(Accept(s, key, now), now)
  {}

  /** Other items and chains progress as before. */
  lemma TurnKeepsOthers(s: State, s': State, c: nat, clock: int, now: int)
    requires Progress(s, clock) && clock <= now && (GoesOn(s, s', c) || Ends(s, s', c))
    requires ItemOk(s'.items[c], now) && (c in s'.chains ==> ChainOk(s'.chains[c], s'.items[c]))
    ensures Progress(s', now)
  {}

  lemma StepProgresses(s: State, e: Event, clock: int)
    requires Linked(s) && Progress(s, clock) && clock <= e.now
    ensures Progress(Step(s, e), e.now)
  {
    var s' := Step(s, e);
    StepChanges(s, e);
    var change := ChangeOf(s, e);
    if change.Kept? || change.Ended? {
      assert KeyLinked(s, s.chains[change.c].key) && ChainLinked(s, change.c);
      TurnProgresses(s, e, change.c, clock);
    }
    hide Step, ChangeOf, Linked, ChainOk, ItemLinked, KeyLinked, ChainLinked, IsRepeat, GoesOn, Ends;
    match change
    case Idle => LaterProgresses(s, s', clock, e.now);
    case Taken => TakingProgresses(s, e.key, e.now, clock);
    case Kept(c) => TurnKeepsOthers(s, s', c, clock, e.now);
    case Ended(c) => TurnKeepsOthers(s, s', c, clock, e.now);
  }

  lemma LaterProgresses(s: State, s': State, clock: int, now: int)
    requires Progress(s, clock) && clock <= now && s' == s.(deduped := s'.deduped)
    ensures Progress(s', now)
  {}

  lemma TakingIsQuiet(s: State, key: string, now: int)
    requires Linked(s) && Quiet(s) && !IsRepeat(s, key, now)
    ensures Quiet(Accept(s, key, now))
  {
    var items := Accept(s, key, now).items;
    forall i | 0 <= i < |s.items| && s.items[i].key == key ensures Follows(items[i], items[|s.items|]) {
      assert ItemLinked(s, i);
    }
  }

  lemma GoingOnIsQuiet(s: State, s': State, c: nat)
    requires Quiet(s) && GoesOn(s, s', c)
    ensures Quiet(s')
  {}

  lemma EndingIsQuiet(s: State, s': State, c: nat, clock: int)
    requires Quiet(s) && Progress(s, clock) && Ends(s, s', c)
    requires s'.items[c].ending.value.Delivered? ==> clock <= s'.items[c].ending.value.at
    ensures Quiet(s')
  {
    forall i | 0 <= i < |s'.items| && s'.items[i].ending.Some? && s'.items[i].ending.value.Delivered?
      ensures s'.items[i].key in s'.lastSent && s'.items[i].ending.value.at <= s'.lastSent[s'.items[i].key]
    {
      assert ItemOk(s.items[i], clock);
    }
    forall i, j | 0 <= i < j < |s'.items| && s'.items[i].key == s'.items[j].key
      ensures Follows(s'.items[i], s'.items[j])
    {
      assert Follows(s.items[i], s.items[j]);
    }
  }

  lemma StepIsQuiet(s: State, e: Event, clock: int)
    requires Linked(s) && Quiet(s) && Progress(s, clock) && clock <= e.now
    ensures Quiet(Step(s, e))
  {
    var s' := Step(s, e);
    StepChanges(s, e);
    var change := ChangeOf(s, e);
    hide Step, ChainLinked, KeyLinked, ItemLinked, Accept, GoesOn, Ends, Progress, Linked;
    match change
    case Idle =>
    case Taken => TakingIsQuiet(s, e.key, e.now);
    case Kept(c) => GoingOnIsQuiet(s, s', c);
    case Ended(c) => EndingIsQuiet(s, s', c, clock);
  }

  lemma StepRemembers(s: State, e: Event)
    requires Linked(s) && Remembered(s)
    ensures Remembered(Step(s, e))
  {
    hide Step, Linked, IsRepeat, ItemLinked;
    var s' := Step(s, e);
    StepChanges(s, e);
    forall k | k in s'.lastSent ensures WasDelivered(s', k, s'.lastSent[k]) {
      if k in s.lastSent && s.lastSent[k] == s'.lastSent[k] {
        var i :| 0 <= i < |s.items| && s.items[i].key == k && s.items[i].ending == Some(Delivered(s.lastSent[k]));
        assert s'.items[i] == s.items[i];
      } else {
        var c := ChangeOf(s, e).c;
        assert s'.items[c].key == k;
      }
    }
  }

  lemma {:induction false} TotalUpdate(items: seq<Item>, i: nat, item: Item, f: Item -> nat)
    requires i < |items|
    ensures Total(items[i := item], f) == Total(items, f) - f(items[i]) + f(item)
  {
    if i < |items| - 1 {
      assert Init(items[i := item]) == Init(items)[i := item];
      TotalUpdate(Init(items), i, item, f);
    } else {
      assert Init(items[i := item]) == Init(items);
    }
  }

  /** The counters follow what happens to the item of a step. */
  lemma TurnCounts(s: State, e: Event, c: nat)
    requires Linked(s) && ChangeOf(s, e) in {Kept(c), Ended(c)} && c < |s.items|
    ensures var s' := Step(s, e);
      && c < |s'.items| && s.items[c].ending.None?
      && s'.failed == s.failed + s'.items[c].attempts - s.items[c].attempts
      && s'.sent == s.sent + IsSent(s'.items[c]) && s'.dropped == s.dropped + IsDropped(s'.items[c])
  {
    StepChanges(s, e);
    assert ChainLinked(s, c) && KeyLinked(s, s.chains[c].key);
    hide GoesOn, Ends, ItemLinked, Linked;
  }

  lemma TurnIsCounted(s: State, s': State, c: nat)
    requires Counted(s) && (GoesOn(s, s', c) || Ends(s, s', c)) && s.items[c].ending.None?
    requires s'.failed == s.failed + s'.items[c].attempts - s.items[c].attempts
    requires s'.sent == s.sent + IsSent(s'.items[c]) && s'.dropped == s.dropped + IsDropped(s'.items[c])
    ensures Counted(s')
  {
    hide Total, ChainLinked, KeyLinked;
    TurnIsItem(s, s', c);
    TotalUpdate(s.items, c, s'.items[c], Failures);
    TotalUpdate(s.items, c, s'.items[c], IsSent);
    TotalUpdate(s.items, c, s'.items[c], IsDropped);
    if Ends(s, s', c) {
      OneFewer(s.pending, s.chains[c].key);
    }
  }

  lemma TurnIsItem(s: State, s': State, c: nat)
    requires GoesOn(s, s', c) || Ends(s, s', c)
    ensures c < |s.items| && s.chains[c].key in s.pending && s.items[c].ending.None?
  {}

  lemma OneFewer(pending: map<string, nat>, key: string)
    requires key in pending
    ensures |pending - {key}| == |pending| - 1
  {}

  lemma TakingIsCounted(s: State, key: string, now: int)
    requires Counted(s) && key !in s.pending
    ensures Counted(Accept(s, key, now))
  {}

  lemma StepIsCounted(s: State, e: Event)
    requires Linked(s) && Counted(s)
    ensures Counted(Step(s, e))
  {
    var s' := Step(s, e);
    StepChanges(s, e);
    var change := ChangeOf(s, e);
    hide Step, ChangeOf, Linked, ItemLinked, KeyLinked, ChainLinked, IsRepeat, Ends;
    match change
    case Idle => IdleIsCounted(s, s');
    case Taken => TakingIsCounted(s, e.key, e.now);
    case Kept(c) =>
      TurnCounts(s, e, c);
      TurnIsCounted(s, s', c);
    case Ended(c) =>
      TurnIsUnended(s, s', c);
      TurnCounts(s, e, c);
      TurnIsCounted(s, s', c);
  }

  lemma IdleIsCounted(s: State, s': State)
    requires Counted(s) && s' == s.(deduped := s'.deduped)
    ensures Counted(s')
  {}

  lemma StepIsSound(s: State, e: Event, clock: int)
    requires Sound(s, clock) && clock <= e.now
    ensures Sound(Step(s, e), e.now)
  {
    hide Linked, Progress, Quiet, Remembered, Counted, Step;
    StepIsLinked(s, e);
    StepProgresses(s, e, clock);
    StepIsQuiet(s, e, clock);
    StepRemembers(s, e);
    StepIsCounted(s, e);
  }

  lemma {:induction false} RunIsSound(trace: seq<Event>)
    requires InOrder(trace)
    ensures Sound(Run(trace), Clock(trace))
  {
    if trace == [] {
    } else {
      assert forall i | 0 <= i < |trace| - 1 :: Init(trace)[i] == trace[i];
      RunIsSound(Init(trace));
      StepIsSound(Run(Init(trace)), Last(trace), Clock(Init(trace)));
    }
  }

  // --------------------------------------------------------- main theorems

  /** Under every interleaving, a key is pending exactly if it has a delivery chain, and then it has exactly one. */
  lemma OneChainPerKey(trace: seq<Event>, key: string)
    requires InOrder(trace)
    ensures var s := Run(trace);
      && (key in s.pending <==> exists c :: c in s.chains && s.chains[c].key == key)
      && (forall c, d | c in s.chains && d in s.chains && s.chains[c].key == key == s.chains[d].key :: c == d)
  {
    RunIsSound(trace);
    var s := Run(trace);
    if key in s.pending {
      assert KeyLinked(s, key);
    }
    forall c | c in s.chains ensures s.chains[c].key in s.pending && s.pending[s.chains[c].key] == c {
      assert ChainLinked(s, c);
    }
  }

  lemma {:induction false} TotalBounds(items: seq<Item>, clock: int)
    requires forall i | 0 <= i < |items| :: ItemOk(items[i], clock)
    ensures 3 * Total(items, IsDropped) <= Total(items, Failures)
    ensures Total(items, Failures) <= 3 * Total(items, IsDropped) + 2 * (|items| - Total(items, IsDropped))
  {
    if items == [] {
    } else {
      TotalBounds(Init(items), clock);
      assert ItemOk(Last(items), clock);
    }
  }

  /**
    Accepted items are sent, dropped or pending; the failures are the three of each dropped item and at most two of
    each other.
   */
  lemma CountersAgree(trace: seq<Event>)
    requires InOrder(trace)
    ensures var s := Run(trace);
      && |s.items| == s.sent + s.dropped + |s.pending|
      && 3 * s.dropped <= s.failed <= 3 * s.dropped + 2 * (s.sent + |s.pending|)
  {
    RunIsSound(trace);
    TotalBounds(Run(trace).items, Clock(trace));
  }

  /** An item is tried at most three times, 250 and 500 ms apart or more; it is dropped only after three failures. */
  lemma AttemptsAreSpaced(trace: seq<Event>, i: nat)
    requires InOrder(trace) && i < |Run(trace).items|
    ensures var item := Run(trace).items[i];
      && |item.startedAt| <= 3
      && (|item.startedAt| >= 2 ==> item.startedAt[1] - item.startedAt[0] >= 250)
      && (|item.startedAt| >= 3 ==> item.startedAt[2] - item.startedAt[1] >= 500)
      && (item.ending == Some(Dropped) <==> item.attempts == 3)
      && (item.ending.Some? && item.ending.value.Delivered? ==> |item.startedAt| == item.attempts + 1)
      && (item.ending.None? <==> item.key in Run(trace).pending && Run(trace).pending[item.key] == i)
  {
    RunIsSound(trace);
    var s := Run(trace);
    hide Run, Sound, Clock, Step;
    SoundItem(s, i, Clock(trace));
    BackoffSpaces(s.items[i], Clock(trace));
    AttemptsAreFew(s, i, Clock(trace));
    hide ItemOk, ChainOk;
  }

  lemma AttemptsAreFew(s: State, i: nat, clock: int)
    requires i < |s.items| && ItemOk(s.items[i], clock)
    requires s.items[i].ending.None? ==> i in s.chains && ChainOk(s.chains[i], s.items[i])
    ensures var item := s.items[i];
      && |item.startedAt| <= 3
      && (item.ending == Some(Dropped) <==> item.attempts == 3)
      && (item.ending.Some? && item.ending.value.Delivered? ==> |item.startedAt| == item.attempts + 1)
  {}

  lemma SoundItem(s: State, i: nat, clock: int)
    requires Sound(s, clock) && i < |s.items|
    ensures ItemOk(s.items[i], clock)
    ensures s.items[i].ending.None? <==> s.items[i].key in s.pending && s.pending[s.items[i].key] == i
    ensures s.items[i].ending.None? ==>
      i in s.chains && s.chains[i].key == s.items[i].key && ChainOk(s.chains[i], s.items[i])
  {
    hide ItemOk, ChainOk, Quiet, Remembered, Counted;
    UnendedIsPending(s, i);
  }

  lemma BackoffSpaces(item: Item, clock: int)
    requires ItemOk(item, clock)
    ensures |item.startedAt| >= 2 ==> item.startedAt[1] - item.startedAt[0] >= 250
    ensures |item.startedAt| >= 3 ==> item.startedAt[2] - item.startedAt[1] >= 500
  {}

  lemma UnendedIsPending(s: State, i: nat)
    requires Linked(s) && i < |s.items|
    ensures s.items[i].ending.None? <==> s.items[i].key in s.pending && s.pending[s.items[i].key] == i
    ensures s.items[i].ending.None? ==> i in s.chains && s.chains[i].key == s.items[i].key
  {
    assert ItemLinked(s, i);
    if s.items[i].key in s.pending {
      assert KeyLinked(s, s.items[i].key);
    }
  }

  /** Two deliveries for one key are at least a second apart, with every attempt of the later one after that second. */
  lemma DeliveriesAreApart(trace: seq<Event>, i: nat, j: nat)
    requires InOrder(trace) && i < j < |Run(trace).items|
    requires var items := Run(trace).items;
      items[i].key == items[j].key && items[i].ending.Some? && items[i].ending.value.Delivered?
    ensures var items := Run(trace).items;
      && (forall n | 0 <= n < |items[j].startedAt| :: items[j].startedAt[n] - items[i].ending.value.at >= QUIET_MS)
      && (items[j].ending.Some? && items[j].ending.value.Delivered? ==>
           items[j].ending.value.at - items[i].ending.value.at >= QUIET_MS)
  {
    RunIsSound(trace);
    assert ItemOk(Run(trace).items[j], Clock(trace));
  }

  /** The item has not ended, or was delivered less than a second before. */
  predicate IsRecent(item: Item, now: int) {
    match item.ending
    case None => true
    case Some(Delivered(at)) => now - at < QUIET_MS
    case Some(Dropped) => false
  }

  ghost predicate Recent(s: State, key: string, now: int) {
    exists i :: 0 <= i < |s.items| && s.items[i].key == key && IsRecent(s.items[i], now)
  }

  lemma RecentIsRepeat(s: State, key: string, now: int)
    requires Linked(s) && Quiet(s) && Remembered(s) && QUIET_MS <= now
    ensures Recent(s, key, now) <==> IsRepeat(s, key, now)
  {
    if IsRepeat(s, key, now) {
      if key in s.pending {
        assert KeyLinked(s, key);
        assert IsRecent(s.items[s.pending[key]], now);
      } else {
        assert WasDelivered(s, key, s.lastSent[key]);
        var i :| 0 <= i < |s.items| && s.items[i].key == key && s.items[i].ending == Some(Delivered(s.lastSent[key]));
        assert IsRecent(s.items[i], now);
      }
    }
    if Recent(s, key, now) {
      var i :| 0 <= i < |s.items| && s.items[i].key == key && IsRecent(s.items[i], now);
      UnendedIsPending(s, i);
    }
  }

  /** An update is taken on exactly when none for its key is under way or was delivered within the last second. */
  lemma UpdateIsTakenExactlyWhen(trace: seq<Event>, key: string, now: int)
    requires InOrder(trace) && key != "" && Clock(trace) <= now && QUIET_MS <= now
    ensures var s, s' := Run(trace), Step(Run(trace), Enqueue(key, now));
      if Recent(s, key, now) then s' == s.(deduped := s.deduped + 1)
      else s'.items == s.items + [Item(key, 0, now, [], None)] && s'.deduped == s.deduped
  {
    hide Linked, Progress, Quiet, Remembered, Counted, IsRepeat, Recent, Run, Clock, InOrder;
    RunIsSound(trace);
    RecentIsRepeat(Run(trace), key, now);
  }

  /** How many more steps the chain of an item can take. */
  function StepsLeft(s: State, i: nat): nat
    requires i < |s.items|
  {
    if s.items[i].ending.Some? || i !in s.chains || s.items[i].attempts >= MAX_ATTEMPTS then 0
    else 2 * (MAX_ATTEMPTS - s.items[i].attempts) - if s.chains[i].phase.InFlight? then 1 else 0
  }

  /**
    Every step of an item's chain uses up one of its at most six steps, whatever other chains do; it has ended when
    none is left.
   */
  lemma EveryItemEnds(trace: seq<Event>, e: Event, i: nat)
    requires InOrder(trace) && Clock(trace) <= e.now && i < |Run(trace).items|
    ensures var s, s' := Run(trace), Step(Run(trace), e);
      && i < |s'.items|
      && (StepsLeft(s, i) == 0 <==> s.items[i].ending.Some?)
      && StepsLeft(s, i) <= 6
      && (ChangeOf(s, e) in {Kept(i), Ended(i)} ==> StepsLeft(s', i) < StepsLeft(s, i))
      && (ChangeOf(s, e) !in {Kept(i), Ended(i)} ==> StepsLeft(s', i) == StepsLeft(s, i) && s'.items[i] == s.items[i])
  {
    RunIsSound(trace);
    var s := Run(trace);
    hide Run, Clock, Step, InOrder, ChangeOf, Linked, Progress, Quiet, Remembered, Counted;
    SoundItem(s, i, Clock(trace));
    AttemptsAreFew(s, i, Clock(trace));
    hide ItemOk, ChainOk;
    StepsRunOut(s, i);
    StepUsesStep(s, e, i);
  }

  lemma StepUsesStep(s: State, e: Event, i: nat)
    requires Linked(s) && i < |s.items|
    requires s.items[i].ending.None? ==> i in s.chains && s.items[i].attempts < MAX_ATTEMPTS
    ensures var s', change := Step(s, e), ChangeOf(s, e);
      && i < |s'.items|
      && (change in {Kept(i), Ended(i)} ==> StepsLeft(s', i) < StepsLeft(s, i))
      && (change !in {Kept(i), Ended(i)} ==> StepsLeft(s', i) == StepsLeft(s, i) && s'.items[i] == s.items[i])
  {
    hide Step, Linked, IsRepeat, ChangeOf, GoesOn, Ends;
    StepChanges(s, e);
    var s' := Step(s, e);
    var change := ChangeOf(s, e);
    if change in {Kept(i), Ended(i)} {
      TurnIsUnended(s, s', i);
      TurnUsesStep(s, e, i);
    } else if change.Kept? || change.Ended? {
      OthersKeepSteps(s, s', change.c, i);
    }
  }

  lemma StepsRunOut(s: State, i: nat)
    requires i < |s.items|
    requires s.items[i].ending.None? ==> i in s.chains && s.items[i].attempts < MAX_ATTEMPTS
    ensures StepsLeft(s, i) <= 6 && (StepsLeft(s, i) == 0 <==> s.items[i].ending.Some?)
  {}

  lemma OthersKeepSteps(s: State, s': State, c: nat, i: nat)
    requires GoesOn(s, s', c) || Ends(s, s', c)
    requires i < |s.items| && i != c
    ensures |s'.items| == |s.items| && s'.items[i] == s.items[i] && StepsLeft(s', i) == StepsLeft(s, i)
  {}

  lemma TurnIsUnended(s: State, s': State, c: nat)
    requires GoesOn(s, s', c) || Ends(s, s', c)
    ensures c < |s.items| && s.items[c].ending.None?
  {}

  lemma TurnUsesStep(s: State, e: Event, i: nat)
    requires Linked(s) && i < |s.items| && s.items[i].ending.None? && s.items[i].attempts < MAX_ATTEMPTS
    requires ChangeOf(s, e) in {Kept(i), Ended(i)}
    ensures var s' := Step(s, e); i < |s'.items| && StepsLeft(s', i) < StepsLeft(s, i)
  {}
}
