/**
  The scheduler's ticks: which local minutes they look at, which occurrences of the automations they claim, and
  which claims they drop.
 */
module Scheduler {
  import opened Prelude
  import opened Schedule

  const GRACE_MS := 5 * 60 * 1000
  const MOST_CANDIDATES: nat := 9
  const HOUR_MS := 60 * MINUTE_MS
  const MAX_AGE_MS := 90 * 24 * HOUR_MS
  const MOST_OCCURRENCES: nat := 500
  const MOST_AUTOMATIONS: nat := 100

  function MinuteStart(at: int): int {
    at - at % MINUTE_MS
  }

  predicate LooksBack(previous: Option<int>, now: int, intervalMs: int) {
    previous.Some? && 0 <= now - previous.value <= GRACE_MS + intervalMs * 2
  }

  /** How many minutes have begun, from that of the previous tick to that of this one. */
  function MinutesSince(previous: int, now: int): nat
    requires previous <= now
  {
    (MinuteStart(now) - MinuteStart(previous)) / MINUTE_MS + 1
  }

  /** The instants a tick looks at: the minutes since the previous tick, or just the present. */
  function Candidates(previous: Option<int>, now: int, intervalMs: int): (candidates: seq<int>)
    ensures candidates != []
  {
    if !LooksBack(previous, now, intervalMs) then [now]
    else
      var minutes := MinutesSince(previous.value, now);
      seq(if minutes < MOST_CANDIDATES then minutes
          else MOST_CANDIDATES, i => MinuteStart(previous.value) + i * MINUTE_MS)
  }

  /** The schedule of one automation. */
  datatype Plan = Plan(automation: Automation, payload: Payload, zone: Zone)

  function OccurrenceAt(plan: Plan, at: int): Option<Occurrence> {
    ScheduledOccurrence(plan.automation, plan.payload, plan.zone, at)
  }

  datatype Claimed = Claimed(occurrence: Occurrence, claimedAt: int)

  /** The claims that are kept, and all that were ever made, both in the order in which they were made. */
  datatype Book = Book(kept: seq<Claimed>, made: seq<Claimed>)

  predicate IsClaimed(claims: seq<Claimed>, id: string) {
    exists i :: 0 <= i < |claims| && claims[i].occurrence.id == id
  }

  function Recent(claims: seq<Claimed>, cutoff: int): seq<Claimed> {
    if claims == [] then []
    else Recent(Init(claims), cutoff) + (if Last(claims).claimedAt < cutoff then [] else [Last(claims)])
  }

  function Newest(claims: seq<Claimed>): seq<Claimed> {
    if |claims| > MOST_OCCURRENCES then claims[|claims| - MOST_OCCURRENCES..] else claims
  }

  /** What is kept of the claims after a new one: the newest of those of the last ninety days. */
  function Retained(claims: seq<Claimed>, now: int): seq<Claimed> {
    Newest(Recent(claims, now - MAX_AGE_MS))
  }

  /** Claims the occurrence at an instant, unless there is none or a claim of it is kept. */
  function Claim(plan: Plan, book: Book, at: int, now: int): Book {
    var occurrence := OccurrenceAt(plan, at);
    if occurrence.None? || IsClaimed(book.kept, occurrence.value.id) then book
    else
      var claim := Claimed(occurrence.value, now);
      Book(Retained(book.kept + [claim], now), book.made + [claim])
  }

  function ClaimAll(plan: Plan, book: Book, candidates: seq<int>, now: int): Book {
    if candidates == [] then book
    else Claim(plan, ClaimAll(plan, book, Init(candidates), now), Last(candidates), now)
  }

  /** Looks at the same instants for one automation after the other. */
  function ClaimPlans(plans: seq<Plan>, book: Book, candidates: seq<int>, now: int): Book {
    if plans == [] then book
    else ClaimAll(Last(plans), ClaimPlans(Init(plans), book, candidates, now), candidates, now)
  }

  /** The tick before the last of a run, or the one stored before it. */
  function Previous(stored: Option<int>, ticks: seq<int>): Option<int> {
    if ticks == [] then stored else Some(Last(ticks))
  }

  /** The claims of a run of ticks. */
  function Books(plans: seq<Plan>, stored: Option<int>, intervalMs: int, ticks: seq<int>): Book {
    if ticks == [] then Book([], [])
    else
      ClaimPlans(plans, Books(plans, stored, intervalMs, Init(ticks)),
                 Candidates(Previous(stored, Init(ticks)), Last(ticks), intervalMs), Last(ticks))
  }

  lemma BooksSnoc(plans: seq<Plan>, stored: Option<int>, intervalMs: int, ticks: seq<int>, now: int)
    ensures Books(plans, stored, intervalMs, ticks + [now]) ==
      ClaimPlans(plans, Books(plans, stored, intervalMs, ticks), Candidates(Previous(stored, ticks), now, intervalMs),
                 now)
  {
    assert Init(ticks + [now]) == ticks;
  }

  // ---------------------------------------------------------------- retention

  /** A claim is among the last `n`. */
  ghost predicate IsAmongLast(claims: seq<Claimed>, claim: Claimed, n: int) {
    exists p :: 0 <= p < |claims| && claims[p] == claim && |claims| - p <= n
  }

  /** The claims kept hold every one that is neither too old, at the latest time so far, nor before too many. */
  ghost predicate KeepsRecent(book: Book, latest: int) {
    && (forall claim | claim in book.kept :: claim in book.made)
    && forall i | 0 <= i < |book.made| && |book.made| <= i + MOST_OCCURRENCES ::
         latest - MAX_AGE_MS <= book.made[i].claimedAt ==> IsAmongLast(book.kept, book.made[i], |book.made| - i)
  }

  lemma {:induction false} RecentKeeps(claims: seq<Claimed>, cutoff: int, claim: Claimed, n: int)
    requires IsAmongLast(claims, claim, n) && cutoff <= claim.claimedAt
    ensures IsAmongLast(Recent(claims, cutoff), claim, n)
  {
    var recent, before := Recent(claims, cutoff), Recent(Init(claims), cutoff);
    var p :| 0 <= p < |claims| && claims[p] == claim && |claims| - p <= n;
    if p == |claims| - 1 {
      assert recent[|recent| - 1] == claim;
    } else {
      assert Init(claims)[p] == claim;
      RecentKeeps(Init(claims), cutoff, claim, n - 1);
      var q :| 0 <= q < |before| && before[q] == claim && |before| - q <= n - 1;
      assert recent[q] == claim;
    }
  }

  lemma {:induction false} RecentIsPart(claims: seq<Claimed>, cutoff: int)
    ensures forall claim | claim in Recent(claims, cutoff) :: claim in claims
  {
    if claims == [] {
    } else {
      RecentIsPart(Init(claims), cutoff);
    }
  }

  lemma NewestKeeps(claims: seq<Claimed>, claim: Claimed, n: int)
    requires IsAmongLast(claims, claim, n) && n <= MOST_OCCURRENCES
    ensures IsAmongLast(Newest(claims), claim, n)
  {
    var p :| 0 <= p < |claims| && claims[p] == claim && |claims| - p <= n;
    assert Newest(claims)[|Newest(claims)| - (|claims| - p)] == claim;
  }

  lemma MoreKeeps(claims: seq<Claimed>, more: Claimed, claim: Claimed, n: int)
    requires (claim == more && n == 0) || IsAmongLast(claims, claim, n)
    ensures IsAmongLast(claims + [more], claim, n + 1)
  {
    if claim == more && n == 0 {
      assert (claims + [more])[|claims|] == claim;
    } else {
      var p :| 0 <= p < |claims| && claims[p] == claim && |claims| - p <= n;
      assert (claims + [more])[p] == claim;
    }
  }

  /** Dropping claims after a new one loses none that is recent and among the newest. */
  lemma RetentionKeeps(book: Book, claim: Claimed, latest: int)
    requires KeepsRecent(book, latest) && claim.claimedAt <= latest
    ensures KeepsRecent(Book(Retained(book.kept + [claim], claim.claimedAt), book.made + [claim]), latest)
  {
    hide Recent, Newest, IsAmongLast;
    var claims, made, cutoff := book.kept + [claim], book.made + [claim], claim.claimedAt - MAX_AGE_MS;
    RecentIsPart(claims, cutoff);
    NewestIsPart(Recent(claims, cutoff));
    forall i | 0 <= i < |made| && |made| <= i + MOST_OCCURRENCES && latest - MAX_AGE_MS <= made[i].claimedAt
      ensures IsAmongLast(Retained(claims, claim.claimedAt), made[i], |made| - i)
    {
      assert i < |book.made| ==> book.made[i] == made[i];
      MoreKeeps(book.kept, claim, made[i], |made| - i - 1);
      RecentKeeps(claims, cutoff, made[i], |made| - i);
      NewestKeeps(Recent(claims, cutoff), made[i], |made| - i);
    }
  }

  lemma NewestIsPart(claims: seq<Claimed>)
    ensures forall claim | claim in Newest(claims) :: claim in claims
  {}

  // ------------------------------------------------------------- at most once

  ghost predicate DistinctIds(claims: seq<Claimed>) {
    forall i, j | 0 <= i < j < |claims| :: claims[i].occurrence.id != claims[j].occurrence.id
  }

  /**
    A civil time is repeated within three hours or not at all, and comes again on another day after twenty hours
    at the earliest.
   */
  ghost predicate Calendar(zone: Zone) {
    && (forall t :: IsTime(zone(t)))
    && (forall t, u | zone(t) == zone(u) :: u - t < 3 * HOUR_MS)
    && (forall t, u | MinuteOfDay(zone(t)) == MinuteOfDay(zone(u)) && -20 * HOUR_MS < u - t < 20 * HOUR_MS ::
          zone(t) == zone(u))
  }

  /** The civil times of a fixed offset, which there are for every offset, meet this. */
  lemma FixedOffsetIsCalendar(zone: Zone, ahead: int)
    requires FixedOffset(zone, ahead) && RealDates(zone)
    ensures Calendar(zone)
  {
    hide LocalMinute, MinuteOfDay, IsDate, IsTime;
    forall t, u | MinuteOfDay(zone(t)) == MinuteOfDay(zone(u)) && -20 * HOUR_MS < u - t < 20 * HOUR_MS
      ensures zone(t) == zone(u)
    {
      MinutesArePassed(t, u, ahead);
      MinutesOfOneDay(zone(t), zone(u));
      MinutesAreInjective(zone(t), zone(u));
    }
    forall t, u | zone(t) == zone(u) ensures u - t < 3 * HOUR_MS {
      MinutesArePassed(t, u, ahead);
    }
  }

  lemma MinutesArePassed(t: int, u: int, ahead: int)
    ensures -MINUTE_MS < (u - t) - ((u + ahead) / MINUTE_MS - (t + ahead) / MINUTE_MS) * MINUTE_MS < MINUTE_MS
  {}

  lemma MinutesOfOneDay(c: Civil, d: Civil)
    requires MinuteOfDay(c) == MinuteOfDay(d) && -DAY_MINUTES < LocalMinute(c) - LocalMinute(d) < DAY_MINUTES
    ensures LocalMinute(c) == LocalMinute(d)
  {
    hide DayNumber, MinuteOfDay;
    var days := DayNumber(c.year, c.month, c.day) - DayNumber(d.year, d.month, d.day);
    assert LocalMinute(c) - LocalMinute(d) == days * DAY_MINUTES;
  }

  /** How far before the tick the instants lie that it looks at. */
  function Reach(intervalMs: int): int {
    GRACE_MS + intervalMs * 2 + MINUTE_MS
  }

  /** A time in which no automation comes to more than so many minutes. */
  function MinutesWithin(ms: int): nat {
    if ms < 0 then 0 else ms / (20 * HOUR_MS) + 1
  }

  /** Claims are kept for long enough if the clock falls back by so much: they are neither too old nor too many. */
  predicate KeepsLongEnough(automations: nat, intervalMs: int, back: int) {
    && 0 <= intervalMs && 0 <= back && back + Reach(intervalMs) + 3 * HOUR_MS <= MAX_AGE_MS
    && automations * MinutesWithin(2 * back + 2 * Reach(intervalMs) + 3 * HOUR_MS) <= MOST_OCCURRENCES
  }

  /** Automations with identifiers of their own, whose claims are kept for long enough. */
  ghost predicate Household(plans: seq<Plan>, intervalMs: int, back: int) {
    && KeepsLongEnough(|plans|, intervalMs, back)
    && (forall k, l | 0 <= k < l < |plans| :: plans[k].automation.id != plans[l].automation.id)
    && forall k | 0 <= k < |plans| :: Calendar(plans[k].zone)
  }

  /**
    Claims are kept for long enough in every home whose clock runs forward, in every home at the default interval
    if the clock falls back by two days, and in a home with two automations if it does by ninety days but for the
    hours in which a minute can come up again.
   */
  lemma HomesKeepLongEnough(automations: nat, intervalMs: int)
    requires automations <= MOST_AUTOMATIONS && 0 <= intervalMs <= HOUR_MS
    ensures KeepsLongEnough(automations, intervalMs, 0)
    ensures KeepsLongEnough(automations, 10000, 48 * HOUR_MS)
    ensures automations <= 2 ==> KeepsLongEnough(automations, intervalMs, MAX_AGE_MS - Reach(intervalMs) - 3 * HOUR_MS)
  {
    Product(automations, MinutesWithin(2 * Reach(intervalMs) + 3 * HOUR_MS), MOST_AUTOMATIONS, 1);
    Product(automations, MinutesWithin(96 * HOUR_MS + 2 * Reach(10000) + 3 * HOUR_MS), MOST_AUTOMATIONS, 5);
    if automations <= 2 {
      Product(automations, MinutesWithin(2 * MAX_AGE_MS - 3 * HOUR_MS), 2, 216);
    }
  }

  lemma Product(a: nat, b: nat, c: nat, d: nat)
    requires a <= c && b <= d
    ensures a * b <= c * d
  {
    assert a * b <= c * b <= c * d;
  }

  /** The instants that a tick looks at. */
  ghost predicate AreNear(candidates: seq<int>, intervalMs: int, now: int) {
    forall j | 0 <= j < |candidates| :: now - Reach(intervalMs) <= candidates[j] <= now
  }

  lemma MinuteStartIsWhole(at: int)
    ensures MinuteStart(at) % MINUTE_MS == 0
  {}

  lemma CandidatesAreNear(previous: Option<int>, now: int, intervalMs: int)
    requires 0 <= intervalMs
    ensures AreNear(Candidates(previous, now, intervalMs), intervalMs, now)
  {
    if LooksBack(previous, now, intervalMs) {
      var start, minutes := MinuteStart(previous.value), MinutesSince(previous.value, now);
      MinuteStartIsWhole(previous.value);
      MinuteStartIsWhole(now);
      assert start + (minutes - 1) * MINUTE_MS == MinuteStart(now);
    }
  }

  /** A claim of the occurrence of some automation at an instant shortly before the claim. */
  ghost predicate IsPlanned(plans: seq<Plan>, intervalMs: int, claim: Claimed) {
    && claim.claimedAt - Reach(intervalMs) <= claim.occurrence.scheduledFor <= claim.claimedAt
    && exists k :: 0 <= k < |plans| && OccurrenceAt(plans[k], claim.occurrence.scheduledFor) == Some(claim.occurrence)
  }

  /** What holds of the claims while the clock never falls back by more than `back` from the latest time so far. */
  ghost predicate Orderly(plans: seq<Plan>, intervalMs: int, back: int, book: Book, latest: int) {
    && (forall i | 0 <= i < |book.made| ::
          IsPlanned(plans, intervalMs, book.made[i]) && book.made[i].claimedAt <= latest)
    && (forall i, j | 0 <= i < j < |book.made| :: book.made[i].claimedAt - back <= book.made[j].claimedAt)
    && DistinctIds(book.made) && KeepsRecent(book, latest)
  }

  /** Numbers below a bound for a name, and for the names of automations. */
  ghost function Numbered(name: string, bound: nat): (keys: set<(string, int)>)
    ensures |keys| <= bound
    ensures forall n | 0 <= n < bound :: (name, n) in keys
  {
    if bound == 0 then {} else Numbered(name, bound - 1) + {(name, bound - 1)}
  }

  lemma OneMoreTime(n: nat, bound: nat)
    ensures n * bound + bound == (n + 1) * bound
  {}

  ghost function Keys(plans: seq<Plan>, bound: nat): (keys: set<(string, int)>)
    ensures |keys| <= |plans| * bound
    ensures forall k, n | 0 <= k < |plans| && 0 <= n < bound :: (plans[k].automation.id, n) in keys
  {
    if plans == [] then {}
    else
      var before, keys := Keys(Init(plans), bound), Numbered(Last(plans).automation.id, bound);
      OneMoreTime(|plans| - 1, bound);
      before + keys
  }

  lemma {:induction false} DistinctFit<T>(keys: seq<T>, all: set<T>)
    requires NoDuplicates(keys) && forall i | 0 <= i < |keys| :: keys[i] in all
    ensures |keys| <= |all|
  {
    if keys == [] {
    } else {
      DistinctFit(Init(keys), all - {Last(keys)});
    }
  }

  /** Two claims of one automation within hours of each other are of one local minute. */
  lemma NearClaimsAgree(plans: seq<Plan>, intervalMs: int, back: int, claim: Claimed, other: Claimed)
    requires Household(plans, intervalMs, back)
    requires IsPlanned(plans, intervalMs, claim) && IsPlanned(plans, intervalMs, other)
    requires claim.occurrence.automationId == other.occurrence.automationId
    requires -20 * HOUR_MS < claim.occurrence.scheduledFor - other.occurrence.scheduledFor < 20 * HOUR_MS
    ensures claim.occurrence.id == other.occurrence.id
  {
    hide MinuteOfDay, Weekday, LocalDate;
    var k :| 0 <= k < |plans| && OccurrenceAt(plans[k], claim.occurrence.scheduledFor) == Some(claim.occurrence);
    var l :| 0 <= l < |plans| && OccurrenceAt(plans[l], other.occurrence.scheduledFor) == Some(other.occurrence);
    assert k == l;
    assert Calendar(plans[k].zone);
  }

  /** Which stretch of twenty hours a claim's instant is in. */
  function Stretch(start: int, claim: Claimed): (string, int) {
    (claim.occurrence.automationId, (claim.occurrence.scheduledFor - start) / (20 * HOUR_MS))
  }

  lemma StretchIsKey(plans: seq<Plan>, intervalMs: int, start: int, claim: Claimed, ms: int)
    requires IsPlanned(plans, intervalMs, claim) && start <= claim.occurrence.scheduledFor <= start + ms
    ensures Stretch(start, claim) in Keys(plans, MinutesWithin(ms))
  {
    hide Keys, ScheduledOccurrence, MinutesWithin;
    var at := claim.occurrence.scheduledFor;
    var k :| 0 <= k < |plans| && OccurrenceAt(plans[k], at) == Some(claim.occurrence);
    NamesItsAutomation(plans[k], at);
    StretchIsBelow(at - start, ms);
    assert (plans[k].automation.id, (at - start) / (20 * HOUR_MS)) in Keys(plans, MinutesWithin(ms));
  }

  lemma NamesItsAutomation(plan: Plan, at: int)
    ensures OccurrenceAt(plan, at).Some? ==> OccurrenceAt(plan, at).value.automationId == plan.automation.id
  {}

  lemma StretchIsBelow(offset: int, ms: int)
    requires 0 <= offset <= ms
    ensures 0 <= offset / (20 * HOUR_MS) < MinutesWithin(ms)
  {}

  lemma StretchTellsMinute(plans: seq<Plan>, intervalMs: int, back: int, start: int, claim: Claimed, other: Claimed)
    requires Household(plans, intervalMs, back) && IsPlanned(plans, intervalMs, claim)
    requires IsPlanned(plans, intervalMs, other) && Stretch(start, claim) == Stretch(start, other)
    ensures claim.occurrence.id == other.occurrence.id
  {
    hide IsPlanned, Household;
    NearClaimsAgree(plans, intervalMs, back, claim, other);
  }

  /** In any time no automation claims more minutes than fit, so there are only so many claims in it. */
  lemma FewRecentClaims(plans: seq<Plan>, intervalMs: int, back: int, book: Book, latest: int, i: nat)
    requires Household(plans, intervalMs, back) && Orderly(plans, intervalMs, back, book, latest) && i < |book.made|
    requires latest - back - Reach(intervalMs) - 3 * HOUR_MS <= book.made[i].claimedAt
    ensures |book.made| - i <= |plans| * MinutesWithin(2 * back + 2 * Reach(intervalMs) + 3 * HOUR_MS)
  {
    hide OccurrenceAt, KeepsRecent, Calendar, Stretch, Keys, Household, MinutesWithin, Reach;
    var made, ms := book.made, 2 * back + 2 * Reach(intervalMs) + 3 * HOUR_MS;
    var start := latest - ms;
    var keys := seq(|made| - i, j requires 0 <= j < |made| - i => Stretch(start, made[i + j]));
    forall j, l | 0 <= j < l < |keys| ensures keys[j] != keys[l] {
      if keys[j] == keys[l] {
        StretchTellsMinute(plans, intervalMs, back, start, made[i + j], made[i + l]);
      }
    }
    NotNegative(plans, intervalMs, back);
    forall j | 0 <= j < |keys| ensures keys[j] in Keys(plans, MinutesWithin(ms)) {
      assert made[i].claimedAt - back <= made[i + j].claimedAt;
      StretchIsKey(plans, intervalMs, start, made[i + j], ms);
    }
    DistinctFit(keys, Keys(plans, MinutesWithin(ms)));
  }

  /** The claim of an occurrence is still kept when a tick looks at its local minute again. */
  lemma StillKept(plans: seq<Plan>, intervalMs: int, back: int, book: Book, k: nat, at: int, latest: int, i: nat)
    requires Household(plans, intervalMs, back) && Orderly(plans, intervalMs, back, book, latest)
    requires k < |plans| && i < |book.made| && latest - back - Reach(intervalMs) <= at
    requires OccurrenceAt(plans[k], at).Some? && OccurrenceAt(plans[k], at).value.id == book.made[i].occurrence.id
    ensures IsClaimed(book.kept, book.made[i].occurrence.id)
  {
    hide OccurrenceAt, Calendar, Household, DistinctIds, IsPlanned, IsAmongLast, Reach, MinutesWithin;
    assert IsPlanned(plans, intervalMs, book.made[i]);
    ClaimedWithin(plans, intervalMs, back, book.made[i], k, at);
    FewRecentClaims(plans, intervalMs, back, book, latest, i);
    RecentIsKept(plans, intervalMs, back, book, latest, i);
  }

  lemma RecentIsKept(plans: seq<Plan>, intervalMs: int, back: int, book: Book, latest: int, i: nat)
    requires Household(plans, intervalMs, back) && KeepsRecent(book, latest) && i < |book.made|
    requires latest - back - Reach(intervalMs) - 3 * HOUR_MS <= book.made[i].claimedAt
    requires |book.made| - i <= |plans| * MinutesWithin(2 * back + 2 * Reach(intervalMs) + 3 * HOUR_MS)
    ensures IsClaimed(book.kept, book.made[i].occurrence.id)
  {
    hide Calendar, Reach, MinutesWithin;
    assert IsAmongLast(book.kept, book.made[i], |book.made| - i);
  }

  lemma ClaimedWithin(plans: seq<Plan>, intervalMs: int, back: int, claim: Claimed, k: nat, at: int)
    requires Household(plans, intervalMs, back) && IsPlanned(plans, intervalMs, claim) && k < |plans|
    requires OccurrenceAt(plans[k], at).Some? && OccurrenceAt(plans[k], at).value.id == claim.occurrence.id
    ensures at - 3 * HOUR_MS < claim.occurrence.scheduledFor <= claim.claimedAt
  {
    hide ScheduledOccurrence;
    var l :| 0 <= l < |plans| && OccurrenceAt(plans[l], claim.occurrence.scheduledFor) == Some(claim.occurrence);
    assert Calendar(plans[k].zone) && Calendar(plans[l].zone);
    OneOccurrencePerMinute(plans[k].automation, plans[k].payload, plans[k].zone, at, plans[l].automation,
                           plans[l].payload, plans[l].zone, claim.occurrence.scheduledFor);
    assert k == l;
  }

  lemma ClaimKeeps(plans: seq<Plan>, intervalMs: int, back: int, book: Book, k: nat, at: int, now: int, latest: int)
    requires Household(plans, intervalMs, back) && Orderly(plans, intervalMs, back, book, latest)
    requires k < |plans| && now - Reach(intervalMs) <= at <= now && latest - back <= now <= latest
    ensures Orderly(plans, intervalMs, back, Claim(plans[k], book, at, now), latest)
  {
    hide OccurrenceAt, Household, Retained;
    var book' := Claim(plans[k], book, at, now);
    if book' != book {
      var claim := Claimed(OccurrenceAt(plans[k], at).value, now);
      OccurrenceIsItself(plans[k], at);
      assert IsPlanned(plans, intervalMs, claim);
      forall i | 0 <= i < |book.made| ensures book.made[i].occurrence.id != claim.occurrence.id {
        if book.made[i].occurrence.id == claim.occurrence.id {
          StillKept(plans, intervalMs, back, book, k, at, latest, i);
        }
      }
      RetentionKeeps(book, claim, latest);
      hide KeepsRecent, IsPlanned;
    }
  }

  lemma OccurrenceIsItself(plan: Plan, at: int)
    ensures OccurrenceAt(plan, at).Some? ==> OccurrenceAt(plan, at).value.scheduledFor == at
  {}

  lemma {:induction false} ClaimAllKeeps(plans: seq<Plan>, intervalMs: int, back: int, book: Book, k: nat,
                                         candidates: seq<int>, now: int, latest: int)
    requires Household(plans, intervalMs, back) && Orderly(plans, intervalMs, back, book, latest) && k < |plans|
    requires AreNear(candidates, intervalMs, now) && latest - back <= now <= latest
    ensures Orderly(plans, intervalMs, back, ClaimAll(plans[k], book, candidates, now), latest)
  {
    hide Claim, Household, Orderly;
    if candidates == [] {
    } else {
      ClaimAllKeeps(plans, intervalMs, back, book, k, Init(candidates), now, latest);
      ClaimKeeps(plans, intervalMs, back, ClaimAll(plans[k], book, Init(candidates), now), k, Last(candidates), now,
                 latest);
    }
  }

  lemma {:induction false} ClaimPlansKeeps(plans: seq<Plan>, intervalMs: int, back: int, book: Book, n: nat,
                                           candidates: seq<int>, now: int, latest: int)
    requires Household(plans, intervalMs, back) && Orderly(plans, intervalMs, back, book, latest) && n <= |plans|
    requires AreNear(candidates, intervalMs, now) && latest - back <= now <= latest
    ensures Orderly(plans, intervalMs, back, ClaimPlans(plans[..n], book, candidates, now), latest)
  {
    hide ClaimAll, Household, Orderly;
    if n == 0 {
    } else {
      assert Init(plans[..n]) == plans[..n - 1];
      ClaimPlansKeeps(plans, intervalMs, back, book, n - 1, candidates, now, latest);
      ClaimAllKeeps(plans, intervalMs, back, ClaimPlans(plans[..n - 1], book, candidates, now), n - 1, candidates, now,
                    latest);
    }
  }

  /** The clock never falls back by more than `back`. */
  ghost predicate FallsBack(ticks: seq<int>, back: int) {
    forall i, j | 0 <= i < j < |ticks| :: ticks[i] - back <= ticks[j]
  }

  /** The latest time of a run. */
  function Latest(ticks: seq<int>): (latest: int)
    requires ticks != []
    ensures latest in ticks && forall t | t in ticks :: t <= latest
  {
    assert ticks == Init(ticks) + [Last(ticks)];
    if |ticks| == 1 || Latest(Init(ticks)) < Last(ticks) then Last(ticks) else Latest(Init(ticks))
  }

  lemma LatestIsNear(ticks: seq<int>, back: int)
    requires ticks != [] && FallsBack(ticks, back) && 0 <= back
    ensures Latest(ticks) - back <= Last(ticks) <= Latest(ticks)
    ensures FallsBack(Init(ticks), back) && forall t | t in Init(ticks) :: t <= Latest(ticks)
  {}

  lemma LaterIsOrderly(plans: seq<Plan>, intervalMs: int, back: int, book: Book, latest: int, later: int)
    requires Orderly(plans, intervalMs, back, book, latest) && latest <= later
    ensures Orderly(plans, intervalMs, back, book, later)
  {
    hide IsAmongLast, IsPlanned;
  }

  /** While the clock does not fall back too far no occurrence is claimed twice, though claims are dropped. */
  lemma {:induction false} RunKeeps(plans: seq<Plan>, stored: Option<int>, intervalMs: int, back: int, ticks: seq<int>,
                                    latest: int)
    requires Household(plans, intervalMs, back) && FallsBack(ticks, back) && forall t | t in ticks :: t <= latest
    ensures Orderly(plans, intervalMs, back, Books(plans, stored, intervalMs, ticks), latest)
  {
    hide ClaimPlans, Candidates, Household, Orderly, FallsBack;
    if ticks == [] {
      NothingIsOrderly(plans, intervalMs, back, latest);
    } else {
      var now, high := Last(ticks), Latest(ticks);
      NotNegative(plans, intervalMs, back);
      LatestIsNear(ticks, back);
      RunKeeps(plans, stored, intervalMs, back, Init(ticks), high);
      var candidates := Candidates(Previous(stored, Init(ticks)), now, intervalMs);
      CandidatesAreNear(Previous(stored, Init(ticks)), now, intervalMs);
      assert plans[..|plans|] == plans;
      ClaimPlansKeeps(plans, intervalMs, back, Books(plans, stored, intervalMs, Init(ticks)), |plans|, candidates, now,
                      high);
      LaterIsOrderly(plans, intervalMs, back, Books(plans, stored, intervalMs, ticks), high, latest);
    }
  }

  lemma NotNegative(plans: seq<Plan>, intervalMs: int, back: int)
    requires Household(plans, intervalMs, back)
    ensures 0 <= intervalMs && 0 <= back && 0 <= Reach(intervalMs)
  {}

  lemma NothingIsOrderly(plans: seq<Plan>, intervalMs: int, back: int, latest: int)
    ensures Orderly(plans, intervalMs, back, Book([], []), latest)
  {}

  /**
    Whatever the ticks, and however a zone's clock is put back, no automation claims a local minute twice, as long as
    the hub's clock does not fall back too far: a claim is kept for as long as its minute can come up again.
   */
  lemma NoMinuteTwice(plans: seq<Plan>, stored: Option<int>, intervalMs: int, back: int, ticks: seq<int>, i: nat,
                      j: nat, k: nat, at: int, l: nat, at': int)
    requires Household(plans, intervalMs, back) && FallsBack(ticks, back)
    requires i < j < |Books(plans, stored, intervalMs, ticks).made| && k < |plans| && l < |plans|
    requires OccurrenceAt(plans[k], at) == Some(Books(plans, stored, intervalMs, ticks).made[i].occurrence)
    requires OccurrenceAt(plans[l], at') == Some(Books(plans, stored, intervalMs, ticks).made[j].occurrence)
    ensures k != l || plans[k].zone(at) != plans[l].zone(at')
  {
    hide Books, ScheduledOccurrence, Latest, KeepsRecent, IsPlanned, FallsBack;
    RunKeeps(plans, stored, intervalMs, back, ticks, if ticks == [] then 0 else Latest(ticks));
    assert Calendar(plans[k].zone) && Calendar(plans[l].zone);
    OneOccurrencePerMinute(plans[k].automation, plans[k].payload, plans[k].zone, at, plans[l].automation,
                           plans[l].payload, plans[l].zone, at');
  }

  // ------------------------------------------------------------ at least once

  /** Local time changes by whole minutes only. */
  ghost predicate WholeMinutes(zone: Zone) {
    forall t :: zone(t) == zone(MinuteStart(t))
  }

  /** There is a zone with both properties for every whole number of minutes. */
  lemma ZonesExist(minutes: int)
    ensures Calendar(ZoneAhead(minutes * MINUTE_MS)) && WholeMinutes(ZoneAhead(minutes * MINUTE_MS))
  {
    hide CivilOf, Calendar, FixedOffset, RealDates;
    ZoneAheadIsFixed(minutes * MINUTE_MS);
    FixedOffsetIsCalendar(ZoneAhead(minutes * MINUTE_MS), minutes * MINUTE_MS);
    forall t ensures (t + minutes * MINUTE_MS) / MINUTE_MS == (MinuteStart(t) + minutes * MINUTE_MS) / MINUTE_MS {
      assert (t + minutes * MINUTE_MS) / MINUTE_MS == t / MINUTE_MS + minutes;
      assert MinuteStart(t) == t / MINUTE_MS * MINUTE_MS;
    }
  }

  lemma ClaimedStays(claims: seq<Claimed>, more: seq<Claimed>, id: string)
    requires claims <= more && IsClaimed(claims, id)
    ensures IsClaimed(more, id)
  {
    var i :| 0 <= i < |claims| && claims[i].occurrence.id == id;
    assert more[i].occurrence.id == id;
  }

  lemma {:induction false} ClaimAllGrows(plan: Plan, book: Book, candidates: seq<int>, now: int)
    ensures book.made <= ClaimAll(plan, book, candidates, now).made
  {
    hide OccurrenceAt, Retained;
    if candidates == [] {
    } else {
      ClaimAllGrows(plan, book, Init(candidates), now);
    }
  }

  lemma {:induction false} ClaimPlansGrows(plans: seq<Plan>, book: Book, candidates: seq<int>, now: int)
    ensures book.made <= ClaimPlans(plans, book, candidates, now).made
  {
    hide ClaimAll;
    if plans == [] {
    } else {
      ClaimPlansGrows(Init(plans), book, candidates, now);
      ClaimAllGrows(Last(plans), ClaimPlans(Init(plans), book, candidates, now), candidates, now);
    }
  }

  lemma ClaimClaims(plan: Plan, book: Book, at: int, now: int)
    requires (forall claim | claim in book.kept :: claim in book.made) && OccurrenceAt(plan, at).Some?
    ensures IsClaimed(Claim(plan, book, at, now).made, OccurrenceAt(plan, at).value.id)
  {
    hide OccurrenceAt, Retained;
    var id, made := OccurrenceAt(plan, at).value.id, Claim(plan, book, at, now).made;
    if IsClaimed(book.kept, id) {
      var i :| 0 <= i < |book.kept| && book.kept[i].occurrence.id == id;
      assert book.kept[i] in made;
    } else {
      assert made[|book.made|].occurrence.id == id;
    }
  }

  lemma {:induction false} ClaimAllClaims(plans: seq<Plan>, intervalMs: int, back: int, book: Book, k: nat,
                                          candidates: seq<int>, now: int, latest: int, c: nat)
    requires Household(plans, intervalMs, back) && Orderly(plans, intervalMs, back, book, latest) && k < |plans|
    requires AreNear(candidates, intervalMs, now) && latest - back <= now <= latest
    requires c < |candidates| && OccurrenceAt(plans[k], candidates[c]).Some?
    ensures IsClaimed(ClaimAll(plans[k], book, candidates, now).made, OccurrenceAt(plans[k], candidates[c]).value.id)
    decreases |candidates|
  {
    hide OccurrenceAt, Claim, Household, IsPlanned, IsAmongLast, IsClaimed;
    var before := ClaimAll(plans[k], book, Init(candidates), now);
    if c < |candidates| - 1 {
      ClaimAllClaims(plans, intervalMs, back, book, k, Init(candidates), now, latest, c);
      ClaimAllGrows(plans[k], before, [Last(candidates)], now);
      assert Init([Last(candidates)]) == [];
      ClaimedStays(before.made, ClaimAll(plans[k], before, [Last(candidates)], now).made,
                   OccurrenceAt(plans[k], candidates[c]).value.id);
    } else {
      ClaimAllKeeps(plans, intervalMs, back, book, k, Init(candidates), now, latest);
      ClaimClaims(plans[k], before, Last(candidates), now);
    }
  }

  lemma {:induction false} ClaimPlansClaims(plans: seq<Plan>, intervalMs: int, back: int, book: Book, n: nat, k: nat,
                                            candidates: seq<int>, now: int, latest: int, c: nat)
    requires Household(plans, intervalMs, back) && Orderly(plans, intervalMs, back, book, latest) && k < n <= |plans|
    requires AreNear(candidates, intervalMs, now) && latest - back <= now <= latest
    requires c < |candidates| && OccurrenceAt(plans[k], candidates[c]).Some?
    ensures IsClaimed(ClaimPlans(plans[..n], book, candidates, now).made,
                      OccurrenceAt(plans[k], candidates[c]).value.id)
  {
    hide OccurrenceAt, ClaimAll, Household, Orderly, IsClaimed;
    assert Init(plans[..n]) == plans[..n - 1];
    var before := ClaimPlans(plans[..n - 1], book, candidates, now);
    if k < n - 1 {
      ClaimPlansClaims(plans, intervalMs, back, book, n - 1, k, candidates, now, latest, c);
      ClaimAllGrows(plans[n - 1], before, candidates, now);
      ClaimedStays(before.made, ClaimAll(plans[n - 1], before, candidates, now).made,
                   OccurrenceAt(plans[k], candidates[c]).value.id);
    } else {
      ClaimPlansKeeps(plans, intervalMs, back, book, n - 1, candidates, now, latest);
      ClaimAllClaims(plans, intervalMs, back, before, k, candidates, now, latest, c);
    }
  }

  /** A tick claims the occurrence at every instant it looks at, unless it was claimed before. */
  lemma TickClaims(plans: seq<Plan>, stored: Option<int>, intervalMs: int, back: int, ticks: seq<int>, k: nat, c: nat)
    requires Household(plans, intervalMs, back) && FallsBack(ticks, back) && ticks != [] && k < |plans|
    requires c < |Candidates(Previous(stored, Init(ticks)), Last(ticks), intervalMs)|
    ensures var at := Candidates(Previous(stored, Init(ticks)), Last(ticks), intervalMs)[c];
      OccurrenceAt(plans[k], at).Some? ==>
      IsClaimed(Books(plans, stored, intervalMs, ticks).made, OccurrenceAt(plans[k], at).value.id)
  {
    hide OccurrenceAt, ClaimPlans, Candidates, Orderly, IsClaimed, Household, FallsBack, Reach;
    var now, high := Last(ticks), Latest(ticks);
    var candidates := Candidates(Previous(stored, Init(ticks)), now, intervalMs);
    NotNegative(plans, intervalMs, back);
    LatestIsNear(ticks, back);
    RunKeeps(plans, stored, intervalMs, back, Init(ticks), high);
    CandidatesAreNear(Previous(stored, Init(ticks)), now, intervalMs);
    assert plans[..|plans|] == plans;
    var before := Books(plans, stored, intervalMs, Init(ticks));
    if OccurrenceAt(plans[k], candidates[c]).Some? {
      ClaimPlansClaims(plans, intervalMs, back, before, |plans|, k, candidates, now, high, c);
    }
  }

  /** The tick looks at every minute since the one before: it is neither too far back nor are there too many. */
  predicate LooksAtAll(previous: int, now: int, intervalMs: int) {
    LooksBack(Some(previous), now, intervalMs) && MinutesSince(previous, now) <= MOST_CANDIDATES
  }

  /** At the default interval of ten seconds, ticks that are no more than five minutes and twenty seconds apart do. */
  lemma UsualTicksLookAtAll(previous: int, now: int)
    requires 0 <= now - previous <= GRACE_MS + 20000
    ensures LooksAtAll(previous, now, 10000)
  {}

  lemma CandidateOf(previous: int, now: int, intervalMs: int, minute: int) returns (k: nat)
    requires LooksAtAll(previous, now, intervalMs)
    requires minute % MINUTE_MS == 0 && MinuteStart(previous) <= minute <= MinuteStart(now)
    ensures k < |Candidates(Some(previous), now, intervalMs)| &&
      Candidates(Some(previous), now, intervalMs)[k] == minute
  {
    k := (minute - MinuteStart(previous)) / MINUTE_MS;
    assert MinuteStart(previous) % MINUTE_MS == 0;
    assert minute == MinuteStart(previous) + k * MINUTE_MS;
  }

  ghost predicate Steady(intervalMs: int, ticks: seq<int>) {
    forall i | 0 < i < |ticks| :: LooksAtAll(ticks[i - 1], ticks[i], intervalMs)
  }

  lemma SteadyStart(intervalMs: int, ticks: seq<int>)
    requires ticks != [] && Steady(intervalMs, ticks)
    ensures Steady(intervalMs, Init(ticks))
    ensures |ticks| > 1 ==> LooksAtAll(Last(Init(ticks)), Last(ticks), intervalMs)
  {
    forall i | 0 < i < |Init(ticks)| ensures LooksAtAll(Init(ticks)[i - 1], Init(ticks)[i], intervalMs) {
      assert LooksAtAll(ticks[i - 1], ticks[i], intervalMs);
    }
    if |ticks| > 1 {
      assert LooksAtAll(ticks[|ticks| - 2], ticks[|ticks| - 1], intervalMs);
    }
  }

  lemma {:induction false} SteadyIsForward(intervalMs: int, ticks: seq<int>)
    requires Steady(intervalMs, ticks)
    ensures FallsBack(ticks, 0)
  {
    hide MinutesSince;
    if ticks == [] {
    } else {
      SteadyStart(intervalMs, ticks);
      SteadyIsForward(intervalMs, Init(ticks));
      forall i, j | 0 <= i < j < |ticks| ensures ticks[i] <= ticks[j] {
        assert j < |ticks| - 1 ==> Init(ticks)[i] <= Init(ticks)[j];
        assert i < |ticks| - 2 ==> Init(ticks)[i] <= Init(ticks)[|ticks| - 2];
      }
    }
  }

  lemma SameMinuteSameOccurrence(plan: Plan, at: int, other: int)
    requires plan.zone(at) == plan.zone(other) && OccurrenceAt(plan, at).Some?
    ensures OccurrenceAt(plan, other).Some? && OccurrenceAt(plan, other).value.id == OccurrenceAt(plan, at).value.id
  {}

  lemma MinuteStartsFollow(previous: Option<int>, now: int, intervalMs: int)
    requires LooksBack(previous, now, intervalMs)
    ensures MinuteStart(previous.value) <= MinuteStart(now)
  {}

  /** An instant in the minute of the first tick, or in a later one up to the last, is claimed if it matches. */
  lemma {:induction false} EveryMinuteIsClaimed(plans: seq<Plan>, stored: Option<int>, intervalMs: int,
                                                ticks: seq<int>, k: nat, at: int)
    requires Household(plans, intervalMs, 0) && ticks != [] && Steady(intervalMs, ticks)
    requires k < |plans| && WholeMinutes(plans[k].zone) && OccurrenceAt(plans[k], at).Some?
    requires MinuteStart(ticks[0]) <= MinuteStart(at) <= MinuteStart(Last(ticks))
    requires stored.None? || !LooksBack(stored, ticks[0], intervalMs) || LooksAtAll(stored.value, ticks[0], intervalMs)
    ensures IsClaimed(Books(plans, stored, intervalMs, ticks).made, OccurrenceAt(plans[k], at).value.id)
    decreases |ticks|
  {
    hide OccurrenceAt, ClaimPlans, MinuteStart, Household, IsClaimed, Steady;
    var plan, now := plans[k], Last(ticks);
    var before := Books(plans, stored, intervalMs, Init(ticks));
    var candidates := Candidates(Previous(stored, Init(ticks)), now, intervalMs);
    var id := OccurrenceAt(plan, at).value.id;
    SteadyIsForward(intervalMs, ticks);
    SteadyStart(intervalMs, ticks);
    var c: nat := 0;
    if |ticks| == 1 {
      assert plan.zone(at) == plan.zone(now) == plan.zone(MinuteStart(now));
      MinuteStartIsWhole(now);
      if LooksBack(stored, now, intervalMs) {
        MinuteStartsFollow(stored, now, intervalMs);
        c := CandidateOf(stored.value, now, intervalMs, MinuteStart(now));
      }
    } else if MinuteStart(at) <= MinuteStart(Last(Init(ticks))) {
      EveryMinuteIsClaimed(plans, stored, intervalMs, Init(ticks), k, at);
      ClaimPlansGrows(plans, before, candidates, now);
      ClaimedStays(before.made, Books(plans, stored, intervalMs, ticks).made, id);
      return;
    } else {
      MinuteStartIsWhole(at);
      c := CandidateOf(Last(Init(ticks)), now, intervalMs, MinuteStart(at));
    }
    SameMinuteSameOccurrence(plan, at, candidates[c]);
    TickClaims(plans, stored, intervalMs, 0, ticks, k, c);
  }

  /** Over every run of ticks close enough to each other, each matching minute of an automation is claimed once. */
  lemma ExactlyOnce(plans: seq<Plan>, stored: Option<int>, intervalMs: int, ticks: seq<int>, k: nat, at: int)
    returns (i: nat)
    requires Household(plans, intervalMs, 0) && ticks != [] && Steady(intervalMs, ticks)
    requires k < |plans| && WholeMinutes(plans[k].zone) && OccurrenceAt(plans[k], at).Some?
    requires MinuteStart(ticks[0]) <= MinuteStart(at) <= MinuteStart(Last(ticks))
    requires stored.None? || !LooksBack(stored, ticks[0], intervalMs) || LooksAtAll(stored.value, ticks[0], intervalMs)
    ensures var made, id := Books(plans, stored, intervalMs, ticks).made, OccurrenceAt(plans[k], at).value.id;
      i < |made| && made[i].occurrence.id == id && forall j | 0 <= j < |made| && made[j].occurrence.id == id :: j == i
  {
    hide Books, OccurrenceAt, Household, KeepsRecent, IsPlanned;
    EveryMinuteIsClaimed(plans, stored, intervalMs, ticks, k, at);
    SteadyIsForward(intervalMs, ticks);
    RunKeeps(plans, stored, intervalMs, 0, ticks, Latest(ticks));
    var made, id := Books(plans, stored, intervalMs, ticks).made, OccurrenceAt(plans[k], at).value.id;
    i :| 0 <= i < |made| && made[i].occurrence.id == id;
  }

  /**
    A clock set back by more than ninety days after another run claims an occurrence again: its first claim was
    dropped.
   */
  lemma SetBackClaimsAgain(plan: Plan, intervalMs: int, first: int, later: int)
    requires OccurrenceAt(plan, first).Some? && OccurrenceAt(plan, later).Some?
    requires OccurrenceAt(plan, first).value.id != OccurrenceAt(plan, later).value.id
    requires later - first > MAX_AGE_MS && 0 <= intervalMs <= HOUR_MS
    ensures var made := Books([plan], None, intervalMs, [first, later, first]).made;
      |made| == 3 && made[0] == made[2] == Claimed(OccurrenceAt(plan, first).value, first)
  {
    hide OccurrenceAt, Books, Retained;
    var a := Claimed(OccurrenceAt(plan, first).value, first);
    var b := Claimed(OccurrenceAt(plan, later).value, later);
    OneTick(plan, None, intervalMs, [], first);
    PairRetained([], a);
    OneTick(plan, None, intervalMs, [first], later);
    PairRetained([a], b);
    OneTick(plan, None, intervalMs, [first, later], first);
    PairRetained([b], a);
    NothingMade([plan], intervalMs);
    assert [] + [first] == [first] && [first] + [later] == [first, later];
    assert [] + [a] == [a] && [a] + [b] == [a, b];
    assert Books([plan], None, intervalMs, [first]) == Book([a], [a]);
    assert Books([plan], None, intervalMs, [first, later]) == Book([b], [a, b]);
    assert [first, later] + [first] == [first, later, first];
  }

  lemma NothingMade(plans: seq<Plan>, intervalMs: int)
    ensures Books(plans, None, intervalMs, []) == Book([], [])
  {}

  /** A claim that is alone or follows one other drops that one if it is too old. */
  lemma PairRetained(before: seq<Claimed>, claim: Claimed)
    requires |before| <= 1
    ensures Retained(before + [claim], claim.claimedAt) ==
      if before != [] && before[0].claimedAt < claim.claimedAt - MAX_AGE_MS then [claim] else before + [claim]
  {
    assert Init(before + [claim]) == before;
    if before != [] {
      assert Init(before) == [] && before == [before[0]];
    }
    var cutoff := claim.claimedAt - MAX_AGE_MS;
    assert Recent(before, cutoff) == if before == [] || before[0].claimedAt < cutoff then [] else before;
  }

  /** A tick that does not look back looks at the present only. */
  lemma OneTick(plan: Plan, stored: Option<int>, intervalMs: int, ticks: seq<int>, now: int)
    requires !LooksBack(Previous(stored, ticks), now, intervalMs)
    ensures Books([plan], stored, intervalMs, ticks + [now]) ==
      Claim(plan, Books([plan], stored, intervalMs, ticks), now, now)
  {
    hide OccurrenceAt, Retained, Books;
    assert Init([plan]) == [] && Init([now]) == [];
    BooksSnoc([plan], stored, intervalMs, ticks, now);
    assert Candidates(Previous(stored, ticks), now, intervalMs) == [now];
    var book := Books([plan], stored, intervalMs, ticks);
    assert ClaimAll(plan, book, [], now) == book && ClaimPlans([], book, [now], now) == book;
    assert ClaimAll(plan, book, [now], now) == Claim(plan, book, now, now);
    assert ClaimPlans([plan], book, [now], now) == Claim(plan, book, now, now);
  }
}
