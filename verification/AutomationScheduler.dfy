/** The scheduler as an object. */
module AutomationScheduler {
  import opened Prelude
  import opened Schedule
  import opened Scheduler

  class AutomationScheduler {
    const plans: seq<Plan>
    const intervalMs: int
    var lastTickAt: Option<int>
    /** The claims kept, in the order in which they were made. */
    var occurrences: seq<Claimed>
    /** Every claim ever made, the tick stored before the first, and every tick since. */
    ghost var made: seq<Claimed>
    ghost const stored: Option<int>
    ghost var ticks: seq<int>

    /** The object is where its ticks lead. */
    ghost predicate Valid()
      reads this
    {
      lastTickAt == Previous(stored, ticks) && Book(occurrences, made) == Books(plans, stored, intervalMs, ticks)
    }

    constructor (plans: seq<Plan>, intervalMs: int, lastTickAt: Option<int>)
      ensures Valid() && ticks == [] && occurrences == [] && stored == lastTickAt
      ensures this.plans == plans && this.intervalMs == intervalMs
    {
      this.plans, this.intervalMs, this.lastTickAt, occurrences := plans, intervalMs, lastTickAt, [];
      made, stored, ticks := [], lastTickAt, [];
    }

    /** Walks a cursor from the minute of the previous tick to that of this one. */
    static method DueMinuteCandidates(previous: Option<int>, now: int, intervalMs: int) returns (candidates: seq<int>)
      ensures candidates == Candidates(previous, now, intervalMs)
    {
      if previous.None? {
        return [now];
      }
      var elapsed := now - previous.value;
      if elapsed < 0 || elapsed > GRACE_MS + intervalMs * 2 {
        return [now];
      }
      var start, end := MinuteStart(previous.value), MinuteStart(now);
      candidates := [];
      var cursor := start;
      while cursor <= end && |candidates| < MOST_CANDIDATES
        invariant cursor == start + |candidates| * MINUTE_MS
        invariant |candidates| <= MOST_CANDIDATES && |candidates| <= MinutesSince(previous.value, now)
        invariant forall k | 0 <= k < |candidates| :: candidates[k] == start + k * MINUTE_MS
        decreases MOST_CANDIDATES - |candidates|
      {
        candidates := candidates + [cursor];
        cursor := cursor + MINUTE_MS;
      }
    }

    /** Drops claims that are too old, and then the oldest beyond the bound. */
    static method Retain(claims: seq<Claimed>, now: int) returns (retained: seq<Claimed>)
      ensures retained == Retained(claims, now)
    {
      var cutoff := now - MAX_AGE_MS;
      retained := [];
      var i := 0;
      while i < |claims|
        invariant 0 <= i <= |claims|
        invariant retained == Recent(claims[..i], cutoff)
      {
        assert Init(claims[..i + 1]) == claims[..i];
        if claims[i].claimedAt >= cutoff {
          retained := retained + [claims[i]];
        }
        i := i + 1;
      }
      assert claims[..|claims|] == claims;
      if |retained| > MOST_OCCURRENCES {
        retained := retained[|retained| - MOST_OCCURRENCES..];
      }
    }

    /** Records the occurrence at an instant, if there is one and none with its identifier is recorded. */
    method Claim(plan: Plan, at: int, now: int) returns (claimed: seq<Claimed>)
      modifies `occurrences, `made
      ensures Book(occurrences, made) == Scheduler.Claim(plan, old(Book(occurrences, made)), at, now)
      ensures made == old(made) + claimed
    {
      hide OccurrenceAt, Retained;
      claimed := [];
      var occurrence := OccurrenceAt(plan, at);
      if occurrence.None? {
        return;
      }
      var i := 0;
      while i < |occurrences|
        invariant 0 <= i <= |occurrences|
        invariant forall j | 0 <= j < i :: occurrences[j].occurrence.id != occurrence.value.id
      {
        if occurrences[i].occurrence.id == occurrence.value.id {
          return;
        }
        i := i + 1;
      }
      claimed := [Claimed(occurrence.value, now)];
      occurrences := Retain(occurrences + claimed, now);
      made := made + claimed;
    }

    static lemma ClaimAllSnoc(plan: Plan, before: Book, candidates: seq<int>, now: int, i: nat)
      requires i < |candidates|
      ensures ClaimAll(plan, before, candidates[..i + 1], now) ==
        Scheduler.Claim(plan, ClaimAll(plan, before, candidates[..i], now), candidates[i], now)
    {
      assert Init(candidates[..i + 1]) == candidates[..i];
    }

    static lemma ClaimPlansSnoc(plans: seq<Plan>, before: Book, candidates: seq<int>, now: int, k: nat)
      requires k < |plans|
      ensures ClaimPlans(plans[..k + 1], before, candidates, now) ==
        ClaimAll(plans[k], ClaimPlans(plans[..k], before, candidates, now), candidates, now)
    {
      assert Init(plans[..k + 1]) == plans[..k];
    }

    method ClaimEach(plan: Plan, candidates: seq<int>, now: int) returns (due: seq<Claimed>)
      modifies `occurrences, `made
      ensures Book(occurrences, made) == ClaimAll(plan, old(Book(occurrences, made)), candidates, now)
      ensures made == old(made) + due
    {
      hide Scheduler.Claim;
      ghost var before := Book(occurrences, made);
      due := [];
      var i := 0;
      while i < |candidates|
        invariant 0 <= i <= |candidates|
        invariant Book(occurrences, made) == ClaimAll(plan, before, candidates[..i], now)
        invariant made == before.made + due
      {
        ClaimAllSnoc(plan, before, candidates, now, i);
        var claimed := Claim(plan, candidates[i], now);
        due := due + claimed;
        i := i + 1;
      }
      assert candidates[..|candidates|] == candidates;
    }

    /** Looks at the minutes since the last tick for each automation, and returns what it claims. */
    method Tick(now: int) returns (due: seq<Claimed>)
      requires Valid()
      modifies this
      ensures Valid() && ticks == old(ticks) + [now]
      ensures made == old(made) + due
    {
      hide Books, Candidates, ClaimAll;
      ghost var before := Book(occurrences, made);
      due := [];
      var k := 0;
      while k < |plans|
        invariant 0 <= k <= |plans|
        invariant Book(occurrences, made) ==
          ClaimPlans(plans[..k], before, Candidates(lastTickAt, now, intervalMs), now)
        invariant made == before.made + due && ticks == old(ticks) && lastTickAt == old(lastTickAt)
      {
        var candidates := DueMinuteCandidates(lastTickAt, now, intervalMs);
        ClaimPlansSnoc(plans, before, candidates, now, k);
        var claimed := ClaimEach(plans[k], candidates, now);
        due := due + claimed;
        k := k + 1;
      }
      assert plans[..|plans|] == plans;
      BooksSnoc(plans, stored, intervalMs, ticks, now);
      lastTickAt := Some(now);
      ticks := ticks + [now];
    }
  }
}
