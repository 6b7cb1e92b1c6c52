/** The state-change notifier as an object; each callback of a delivery is a method. */
module StateChangeNotifier {
  import opened Prelude
  import opened Notifier

  class StateChangeNotifier {
    const isConfigured: bool
    var pending: map<string, nat>
    var items: seq<Item>
    var lastSent: map<string, int>
    /** The callbacks still to come. */
    var chains: map<nat, Chain>
    var sent: nat
    var deduped: nat
    var failed: nat
    var dropped: nat
    var lastError: Option<string>
    /** Every step so far. */
    ghost var trace: seq<Event>

    ghost function View(): State
      reads this
    {
      State(pending, items, lastSent, chains, sent, deduped, failed, dropped)
    }

    /** The object is where its history leads, and the clock never went back. */
    ghost predicate Valid()
      reads this
    {
      InOrder(trace) && View() == Run(trace)
    }

    ghost predicate NotBefore(now: int)
      reads this
    {
      Clock(trace) <= now
    }

    constructor (isConfigured: bool)
      ensures Valid() && trace == [] && lastError == None && this.isConfigured == isConfigured
    {
      this.isConfigured := isConfigured;
      pending, items, lastSent, chains := map[], [], map[], map[];
      sent, deduped, failed, dropped := 0, 0, 0, 0;
      lastError, trace := None, [];
    }

    lemma Extend(event: Event)
      requires InOrder(trace) && NotBefore(event.now)
      ensures InOrder(trace + [event])
      ensures Run(trace + [event]) == Step(Run(trace), event)
    {
      hide Step;
      assert Init(trace + [event]) == trace;
    }

    lemma ExtendByUpdate(entityId: string, now: int)
      requires Valid() && NotBefore(now)
      ensures InOrder(trace + [Event.Enqueue(entityId, now)])
      ensures Run(trace + [Event.Enqueue(entityId, now)]) == DoEnqueue(View(), entityId, now)
    {
      hide InOrder, Run;
      Extend(Event.Enqueue(entityId, now));
    }

    method Enqueue(entityId: string, now: int)
      requires Valid() && NotBefore(now)
      modifies this
      ensures Valid() && lastError == old(lastError)
      ensures trace == old(trace) + if isConfigured then [Event.Enqueue(entityId, now)] else []
      ensures View() == if isConfigured then DoEnqueue(old(View()), entityId, now) else old(View())
    {
      if !isConfigured {
        return;
      }
      hide Run, InOrder, Step, DoEnqueue;
      ExtendByUpdate(entityId, now);
      trace := trace + [Event.Enqueue(entityId, now)];
      TakeOrCount(entityId, now);
    }

    /** Accepts an update or counts it as a repeat. */
    method TakeOrCount(entityId: string, now: int)
      modifies `pending, `items, `chains, `deduped
      ensures View() == DoEnqueue(old(View()), entityId, now)
    {
      if entityId == "" {
        return;
      }
      var last := 0;
      if entityId in lastSent {
        last := lastSent[entityId];
      }
      if now - last < QUIET_MS {
        deduped := deduped + 1;
        return;
      }
      if entityId in pending {
        deduped := deduped + 1;
        return;
      }
      AcceptItem(entityId, now);
    }

    method AcceptItem(key: string, now: int)
      modifies `chains, `pending, `items
      ensures View() == Accept(old(View()), key, now)
    {
      chains := chains[|items| := Chain(key, Scheduled(now))];
      pending := pending[key := |items|];
      items := items + [Item(key, 0, now, [], None)];
    }

    lemma PendingExists(key: string)
      requires Valid() && key in pending
      ensures pending[key] < |items|
    {
      RunIsSound(trace);
      assert KeyLinked(View(), key);
    }

    /** The timer of a chain fires: a request is sent, unless nothing is pending for its key. */
    method Begin(chain: nat, now: int) returns (request: Option<string>)
      requires Valid() && NotBefore(now) && CanStart(View(), chain, now)
      modifies `chains, `items, `trace
      ensures Valid() && trace == old(trace) + [Start(chain, now)]
      ensures View() == DoStart(old(View()), chain, now)
      ensures request == if old(chains[chain].key in pending) then Some(old(chains[chain].key)) else None
    {
      if chains[chain].key in pending {
        PendingExists(chains[chain].key);
      }
      hide Run, InOrder;
      Extend(Start(chain, now));
      trace := trace + [Start(chain, now)];
      var key := chains[chain].key;
      if key !in pending {
        chains := chains - {chain};
        return None;
      }
      var item := pending[key];
      items := items[item := Started(items[item], now)];
      chains := chains[chain := Chain(key, InFlight(item))];
      request := Some(key);
    }

    /** The platform accepted the request of a chain. */
    method Succeeded(chain: nat, now: int)
      requires Valid() && NotBefore(now) && IsUnderWay(View(), chain)
      modifies this
      ensures Valid() && trace == old(trace) + [Succeed(chain, now)] && lastError == None
      ensures View() == DoSucceed(old(View()), chain, now)
    {
      hide Run, InOrder;
      Extend(Succeed(chain, now));
      trace := trace + [Succeed(chain, now)];
      var key, item := chains[chain].key, chains[chain].phase.item;
      pending := pending - {key};
      lastSent := lastSent[key := now];
      sent := sent + 1;
      lastError := None;
      chains := chains - {chain};
      items := items[item := items[item].(ending := Some(Delivered(now)))];
    }

    /** The request of a chain failed. */
    method Failed(chain: nat, message: string, now: int)
      requires Valid() && NotBefore(now) && IsUnderWay(View(), chain)
      modifies this
      ensures Valid() && trace == old(trace) + [Fail(chain, now)] && lastError == Some(message)
      ensures View() == DoFail(old(View()), chain, now)
    {
      hide Run, InOrder, DoFail;
      Extend(Fail(chain, now));
      trace := trace + [Fail(chain, now)];
      lastError := Some(message);
      CountFailure(chain, now);
    }

    /** Drops the item at its third failure, and otherwise schedules another attempt. */
    method CountFailure(chain: nat, now: int)
      requires IsUnderWay(View(), chain)
      modifies `pending, `items, `chains, `failed, `dropped
      ensures View() == DoFail(old(View()), chain, now)
    {
      var key, item := chains[chain].key, chains[chain].phase.item;
      var counted := items[item].(attempts := items[item].attempts + 1);
      failed := failed + 1;
      if counted.attempts >= MAX_ATTEMPTS {
        pending := pending - {key};
        dropped := dropped + 1;
        chains := chains - {chain};
        items := items[item := counted.(ending := Some(Dropped))];
        return;
      }
      hide Backoff;
      items := items[item := counted];
      chains := chains[chain := Chain(key, Scheduled(now + Backoff(counted.attempts)))];
    }
  }
}
