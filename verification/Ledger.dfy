/** The activity ledger: numbered records, retention, and reading by cursor. */
module Ledger {
  import opened Prelude

  /**
    `occurredAt` is None when the stored time cannot be parsed; strings are lower-cased; device "" is the hub
    itself.
   */
  datatype Record = Record(id: string, sequence: nat, occurredAt: Option<int>, updatedAt: int,
                           device: string, severity: string, category: string, detail: string)

  /** What an update says of a record; what it does not mention is None. */
  datatype Patch = Patch(occurredAt: Option<Option<int>>, updatedAt: Option<int>,
                         device: Option<string>, severity: Option<string>, category: Option<string>,
                         detail: Option<string>)

  datatype Ledger = Ledger(nextSequence: nat, records: seq<Record>, maxRecords: nat)

  datatype Filter = Filter(device: string, severity: string, category: string)

  datatype Page = Page(records: seq<Record>, nextCursor: Option<nat>, hasMore: bool)

  /** `cutoff` is the oldest retained time at the moment of the call. */
  datatype Op =
    | Append(record: Record, cutoff: int)
    | Update(id: string, patch: Patch, updatedAt: int, updateCutoff: int)
    | Prune(pruneCutoff: int)

  // ---------------------------------------------------------------- steps

  predicate IsRetained(record: Record, cutoff: int) {
    record.occurredAt.Some? && cutoff <= record.occurredAt.value
  }

  function Retained(records: seq<Record>, cutoff: int): seq<Record> {
    if records == [] then []
    else (if IsRetained(records[0], cutoff) then [records[0]] else []) + Retained(records[1..], cutoff)
  }

  function Take<T>(s: seq<T>, n: nat): seq<T> {
    if |s| <= n then s else s[..n]
  }

  function DoAppend(l: Ledger, record: Record, cutoff: int): Ledger {
    l.(nextSequence := l.nextSequence + 1,
       records := Take(Retained([record.(sequence := l.nextSequence)] + l.records, cutoff), l.maxRecords))
  }

  function DoPrune(l: Ledger, cutoff: int): Ledger {
    l.(records := Take(Retained(l.records, cutoff), l.maxRecords))
  }

  /** Position of the first record with an id, or the length. */
  function IndexOf(records: seq<Record>, id: string): (i: nat)
    ensures i <= |records|
    ensures i < |records| ==> records[i].id == id
    ensures forall j | 0 <= j < i :: records[j].id != id
  {
    if records == [] || records[0].id == id then 0 else 1 + IndexOf(records[1..], id)
  }

  function Overlay<T>(patch: Option<T>, existing: T): T {
    if patch.Some? then patch.value else existing
  }

  function Patched(existing: Record, patch: Patch, now: int): Record {
    existing.(occurredAt := Overlay(patch.occurredAt, existing.occurredAt), updatedAt := Overlay(patch.updatedAt, now),
              device := Overlay(patch.device, existing.device), severity := Overlay(patch.severity, existing.severity),
              category := Overlay(patch.category, existing.category), detail := Overlay(patch.detail, existing.detail))
  }

  function DoUpdate(l: Ledger, id: string, patch: Patch, now: int, cutoff: int): Ledger {
    var pruned := DoPrune(l, cutoff);
    var i := IndexOf(pruned.records, id);
    if i == |pruned.records| then pruned
    else pruned.(records := pruned.records[i := Patched(pruned.records[i], patch, now)])
  }

  function Apply(l: Ledger, op: Op): Ledger {
    match op
    case Append(record, cutoff) => DoAppend(l, record, cutoff)
    case Update(id, patch, now, cutoff) => DoUpdate(l, id, patch, now, cutoff)
    case Prune(cutoff) => DoPrune(l, cutoff)
  }

  function ApplyAll(l: Ledger, ops: seq<Op>): Ledger {
    if ops == [] then l else Apply(ApplyAll(l, Init(ops)), Last(ops))
  }

  // --------------------------------------------------------------- reading

  predicate Matches(record: Record, filter: Filter) {
    && (filter.device == "" || (if filter.device == "hub" then record.device == "" else record.device == filter.device))
    && (filter.severity == "" || record.severity == filter.severity)
    && (filter.category == "" || record.category == filter.category)
  }

  predicate Selected(record: Record, cutoff: int, filter: Filter, cursor: Option<nat>) {
    && IsRetained(record, cutoff)
    && (cursor.Some? ==> record.sequence < cursor.value)
    && Matches(record, filter)
  }

  function Select(records: seq<Record>, cutoff: int, filter: Filter, cursor: Option<nat>): seq<Record> {
    if records == [] then []
    else (if Selected(records[0], cutoff, filter, cursor) then [records[0]]
          else []) + Select(records[1..], cutoff, filter, cursor)
  }

  /** Stable sort, highest sequence first. */
  function Insert(record: Record, sorted: seq<Record>): seq<Record> {
    if sorted == [] || sorted[0].sequence <= record.sequence then [record] + sorted
    else [sorted[0]] + Insert(record, sorted[1..])
  }

  function Sort(records: seq<Record>): seq<Record> {
    if records == [] then [] else Insert(records[0], Sort(records[1..]))
  }

  function SafeLimit(limit: int): (n: nat)
    ensures 1 <= n <= 100
  {
    var wanted := if limit == 0 then 50 else limit;
    if wanted < 1 then 1 else if wanted > 100 then 100 else wanted
  }

  function List(records: seq<Record>, cutoff: int, filter: Filter, limit: int, cursor: Option<nat>): Page {
    var all := Sort(Select(records, cutoff, filter, cursor));
    var page := Take(all, SafeLimit(limit));
    Page(page, if |page| == SafeLimit(limit) then Some(Last(page).sequence) else None, |all| > |page|)
  }

  // ------------------------------------------------------------ invariants

  ghost predicate Distinct(records: seq<Record>) {
    forall i, j | 0 <= i < j < |records| :: records[i].sequence != records[j].sequence
  }

  ghost predicate Valid(l: Ledger) {
    && Distinct(l.records)
    && forall r | r in l.records :: r.sequence < l.nextSequence
  }

  predicate Holds(records: seq<Record>, n: nat) {
    exists i | 0 <= i < |records| :: records[i].sequence == n
  }

  lemma DistinctTail(records: seq<Record>)
    requires records != []
    ensures Distinct(records) <==> Distinct(records[1..]) && !Holds(records[1..], records[0].sequence)
  {}

  lemma {:induction false} RetainedIsSubsequence(records: seq<Record>, cutoff: int)
    ensures forall r :: r in Retained(records, cutoff) <==> r in records && IsRetained(r, cutoff)
    ensures |Retained(records, cutoff)| <= |records|
    ensures |Retained(records, cutoff)| == |records| ==> Retained(records, cutoff) == records
  {
    if records == [] {
    } else {
      RetainedIsSubsequence(records[1..], cutoff);
      assert records == [records[0]] + records[1..];
    }
  }

  lemma {:induction false} RetainedIsDistinct(records: seq<Record>, cutoff: int)
    requires Distinct(records)
    ensures Distinct(Retained(records, cutoff))
  {
    if records == [] {
    } else {
      DistinctTail(records);
      RetainedIsDistinct(records[1..], cutoff);
      RetainedIsSubsequence(records[1..], cutoff);
      var kept := Retained(records, cutoff);
      if IsRetained(records[0], cutoff) {
        assert kept[1..] == Retained(records[1..], cutoff);
        HoldsIsMembership(kept[1..], records[1..], records[0].sequence);
        DistinctTail(kept);
      }
    }
  }

  lemma HoldsIsMembership(few: seq<Record>, many: seq<Record>, n: nat)
    requires forall r | r in few :: r in many
    ensures Holds(few, n) ==> Holds(many, n)
  {
    if Holds(few, n) {
      var i :| 0 <= i < |few| && few[i].sequence == n;
      assert few[i] in many;
    }
  }

  lemma PruneKeepsValid(l: Ledger, cutoff: int)
    requires Valid(l)
    ensures Valid(DoPrune(l, cutoff))
    ensures forall r | r in DoPrune(l, cutoff).records :: r in l.records
  {
    RetainedIsSubsequence(l.records, cutoff);
    RetainedIsDistinct(l.records, cutoff);
  }

  lemma AppendKeepsValid(l: Ledger, record: Record, cutoff: int)
    requires Valid(l)
    ensures Valid(DoAppend(l, record, cutoff))
    ensures forall r | r in DoAppend(l, record, cutoff).records :: r in l.records || r.sequence == l.nextSequence
  {
    var numbered := [record.(sequence := l.nextSequence)] + l.records;
    assert numbered[1..] == l.records;
    DistinctTail(numbered);
    RetainedIsSubsequence(numbered, cutoff);
    RetainedIsDistinct(numbered, cutoff);
    forall r | r in DoAppend(l, record, cutoff).records ensures r in l.records || r.sequence == l.nextSequence {
      assert r in Retained(numbered, cutoff);
      assert r in numbered;
    }
  }

  lemma UpdateKeepsValid(l: Ledger, id: string, patch: Patch, now: int, cutoff: int)
    requires Valid(l)
    ensures Valid(DoUpdate(l, id, patch, now, cutoff))
    ensures forall n: nat | Holds(DoUpdate(l, id, patch, now, cutoff).records, n) :: Holds(l.records, n)
  {
    PruneKeepsValid(l, cutoff);
    var pruned, l' := DoPrune(l, cutoff), DoUpdate(l, id, patch, now, cutoff);
    assert |l'.records| == |pruned.records|;
    assert forall i | 0 <= i < |l'.records| ::
      l'.records[i].sequence == pruned.records[i].sequence && pruned.records[i] in pruned.records;
    forall n: nat | Holds(l'.records, n) ensures Holds(l.records, n) {
      assert Holds(pruned.records, n);
      HoldsIsMembership(pruned.records, l.records, n);
    }
  }

  /**
    An appended record comes first, unless it is too old; other retained records are lost only where the bound is
    reached.
   */
  lemma AppendLosesNothing(l: Ledger, record: Record, cutoff: int)
    ensures var l', next := DoAppend(l, record, cutoff), record.(sequence := l.nextSequence);
      && (IsRetained(record, cutoff) && l.maxRecords > 0 ==> l'.records != [] && l'.records[0] == next)
      && |l'.records| <= l.maxRecords
      && (|l'.records| < l.maxRecords ==> forall r | r in l.records && IsRetained(r, cutoff) :: r in l'.records)
  {
    var numbered := [record.(sequence := l.nextSequence)] + l.records;
    assert numbered[1..] == l.records;
    RetainedIsSubsequence(l.records, cutoff);
    assert forall r | r in Retained(l.records, cutoff) :: r in Retained(numbered, cutoff);
  }

  /** One record has what the other has, except for what the patch mentions and the time of the change. */
  predicate IsPatchOf(after: Record, before: Record, patch: Patch, now: int) {
    && after.id == before.id && after.sequence == before.sequence
    && (if patch.updatedAt.Some? then patch.updatedAt == Some(after.updatedAt) else after.updatedAt == now)
    && (if patch.occurredAt.Some? then patch.occurredAt == Some(after.occurredAt)
        else after.occurredAt == before.occurredAt)
    && (if patch.device.Some? then patch.device == Some(after.device) else after.device == before.device)
    && (if patch.severity.Some? then patch.severity == Some(after.severity) else after.severity == before.severity)
    && (if patch.category.Some? then patch.category == Some(after.category) else after.category == before.category)
    && (if patch.detail.Some? then patch.detail == Some(after.detail) else after.detail == before.detail)
  }

  /** An update patches a record with the id, if one is retained, and changes no record with another id. */
  lemma UpdateIsExact(l: Ledger, id: string, patch: Patch, now: int, cutoff: int)
    ensures var before, after := DoPrune(l, cutoff).records, DoUpdate(l, id, patch, now, cutoff).records;
      && (forall r: Record | r.id != id :: r in before <==> r in after)
      && ((exists r :: r in before && r.id == id) ==>
            exists r, r' :: r in before && r' in after && r.id == id && IsPatchOf(r', r, patch, now))
      && (!(exists r :: r in before && r.id == id) ==> after == before)
  {
    var before, after := DoPrune(l, cutoff).records, DoUpdate(l, id, patch, now, cutoff).records;
    var i := IndexOf(before, id);
    if i < |before| {
      assert before[i] in before && after[i] in after && IsPatchOf(after[i], before[i], patch, now);
      forall r: Record | r.id != id ensures r in before <==> r in after {
        if r in before {
          var j :| 0 <= j < |before| && before[j] == r;
          assert after[j] == r;
        }
        if r in after {
          var j :| 0 <= j < |after| && after[j] == r;
          assert before[j] == r;
        }
      }
    }
  }

  /** No operation reuses a number, brings a record back, or renumbers one. */
  lemma ApplyKeepsValid(l: Ledger, op: Op)
    requires Valid(l)
    ensures var l' := Apply(l, op);
      && Valid(l')
      && l'.nextSequence == l.nextSequence + (if op.Append? then 1 else 0)
      && l'.maxRecords == l.maxRecords
      && forall n: nat | n < l.nextSequence && Holds(l'.records, n) :: Holds(l.records, n)
  {
    match op
    case Append(record, cutoff) => AppendKeepsValid(l, record, cutoff);
    case Update(id, patch, now, cutoff) => UpdateKeepsValid(l, id, patch, now, cutoff);
    case Prune(cutoff) =>
      PruneKeepsValid(l, cutoff);
      forall n: nat | Holds(DoPrune(l, cutoff).records, n) ensures Holds(l.records, n) {
        HoldsIsMembership(DoPrune(l, cutoff).records, l.records, n);
      }
  }

  /** In every run, numbers stay distinct and below the next one, and a record that is gone stays gone. */
  lemma {:induction false} LedgerInvariant(l: Ledger, ops: seq<Op>)
    requires Valid(l)
    ensures var l' := ApplyAll(l, ops);
      && Valid(l')
      && l.nextSequence <= l'.nextSequence
      && forall n: nat | n < l.nextSequence && Holds(l'.records, n) :: Holds(l.records, n)
  {
    if ops == [] {
    } else {
      LedgerInvariant(l, Init(ops));
      ApplyKeepsValid(ApplyAll(l, Init(ops)), Last(ops));
    }
  }

  // ---------------------------------------------------------- one page

  ghost predicate Descending(s: seq<nat>) {
    forall i, j | 0 <= i < j < |s| :: s[i] > s[j]
  }

  ghost predicate Sorted(records: seq<Record>) {
    forall i, j | 0 <= i < j < |records| :: records[i].sequence > records[j].sequence
  }

  lemma {:induction false} InsertSorts(record: Record, sorted: seq<Record>)
    requires Sorted(sorted) && !Holds(sorted, record.sequence)
    ensures Sorted(Insert(record, sorted))
    ensures forall r :: r in Insert(record, sorted) <==> r == record || r in sorted
    ensures |Insert(record, sorted)| == 1 + |sorted|
  {
    if sorted != [] && sorted[0].sequence > record.sequence {
      HoldsIsMembership(sorted[1..], sorted, record.sequence);
      InsertSorts(record, sorted[1..]);
      assert sorted == [sorted[0]] + sorted[1..];
      var rest := Insert(record, sorted[1..]);
      forall j | 0 <= j < |rest| ensures rest[j].sequence < sorted[0].sequence {
        assert rest[j] in rest;
      }
    }
  }

  /** On distinct numbers sorting is a strictly descending rearrangement. */
  lemma {:induction false} SortSorts(records: seq<Record>)
    requires Distinct(records)
    ensures Sorted(Sort(records))
    ensures forall r :: r in Sort(records) <==> r in records
    ensures |Sort(records)| == |records|
  {
    if records == [] {
    } else {
      DistinctTail(records);
      SortSorts(records[1..]);
      HoldsIsMembership(Sort(records[1..]), records[1..], records[0].sequence);
      InsertSorts(records[0], Sort(records[1..]));
      assert records == [records[0]] + records[1..];
    }
  }

  lemma {:induction false} SelectSelects(records: seq<Record>, cutoff: int, filter: Filter, cursor: Option<nat>)
    ensures forall r :: r in Select(records, cutoff, filter, cursor) <==>
      r in records && Selected(r, cutoff, filter, cursor)
  {
    if records == [] {
    } else {
      SelectSelects(records[1..], cutoff, filter, cursor);
      assert records == [records[0]] + records[1..];
    }
  }

  lemma {:induction false} SelectIsDistinct(records: seq<Record>, cutoff: int, filter: Filter, cursor: Option<nat>)
    requires Distinct(records)
    ensures Distinct(Select(records, cutoff, filter, cursor))
  {
    if records == [] {
    } else {
      DistinctTail(records);
      SelectIsDistinct(records[1..], cutoff, filter, cursor);
      SelectSelects(records[1..], cutoff, filter, cursor);
      var kept := Select(records, cutoff, filter, cursor);
      if Selected(records[0], cutoff, filter, cursor) {
        assert kept[1..] == Select(records[1..], cutoff, filter, cursor);
        HoldsIsMembership(kept[1..], records[1..], records[0].sequence);
        DistinctTail(kept);
      }
    }
  }

  function Numbers(records: seq<Record>): seq<nat> {
    seq(|records|, i requires 0 <= i < |records| => records[i].sequence)
  }

  ghost predicate Visible(records: seq<Record>, cutoff: int, filter: Filter, n: nat) {
    exists r :: r in records && r.sequence == n && IsRetained(r, cutoff) && Matches(r, filter)
  }

  predicate Below(n: nat, cursor: Option<nat>) {
    cursor.Some? ==> n < cursor.value
  }

  /**
    A page of a ledger with distinct numbers lists visible records below the cursor in descending order, and
    leaves out a visible record below the cursor only if there is a next cursor and the record is below it.
   */
  lemma PageIsExact(records: seq<Record>, cutoff: int, filter: Filter, limit: int, cursor: Option<nat>)
    requires Distinct(records)
    ensures var page := List(records, cutoff, filter, limit, cursor);
      && Descending(Numbers(page.records))
      && |page.records| <= SafeLimit(limit)
      && (page.nextCursor.Some? <==> |page.records| == SafeLimit(limit))
      && (forall r | r in page.records :: r in records && Selected(r, cutoff, filter, cursor))
      && (page.nextCursor.Some? ==> page.nextCursor.value == Last(Numbers(page.records)))
      && (forall n: nat | Visible(records, cutoff, filter, n) && Below(n, cursor) ::
            n in Numbers(page.records) || (page.nextCursor.Some? && n < page.nextCursor.value))
      && (page.hasMore ==> page.nextCursor.Some?)
  {
    var selected := Select(records, cutoff, filter, cursor);
    var all := Sort(selected);
    var page := List(records, cutoff, filter, limit, cursor);
    SelectSelects(records, cutoff, filter, cursor);
    SelectIsDistinct(records, cutoff, filter, cursor);
    SortSorts(selected);
    forall n: nat | Visible(records, cutoff, filter, n) && Below(n, cursor)
      ensures n in Numbers(page.records) || (page.nextCursor.Some? && n < page.nextCursor.value)
    {
      var r :| r in records && r.sequence == n && IsRetained(r, cutoff) && Matches(r, filter);
      assert r in all;
      var i :| 0 <= i < |all| && all[i] == r;
      if i < |page.records| {
        assert Numbers(page.records)[i] == n;
      } else {
        assert page.nextCursor.value == all[|page.records| - 1].sequence;
      }
    }
  }

  // -------------------------------------------------------------- walking

  /** The ledger, and the retention cutoff, at the time a page is read. */
  datatype Moment = Moment(records: seq<Record>, cutoff: int)

  /** Pages read one after the other, each from the cursor the one before returned, until there is no cursor. */
  function Walk(moments: seq<Moment>, filter: Filter, limit: int, cursor: Option<nat>): seq<Page> {
    if moments == [] then []
    else
      var page := List(moments[0].records, moments[0].cutoff, filter, limit, cursor);
      [page] + if page.nextCursor.None? then [] else Walk(moments[1..], filter, limit, page.nextCursor)
  }

  predicate Finished(pages: seq<Page>) {
    pages != [] && Last(pages).nextCursor.None?
  }

  function AllNumbers(pages: seq<Page>): seq<nat> {
    if pages == [] then [] else Numbers(pages[0].records) + AllNumbers(pages[1..])
  }

  ghost predicate AllDistinct(moments: seq<Moment>) {
    forall i | 0 <= i < |moments| :: Distinct(moments[i].records)
  }

  /** The numbers of a page descend from below the cursor to the next one. */
  lemma PageDescends(moment: Moment, filter: Filter, limit: int, cursor: Option<nat>)
    requires Distinct(moment.records)
    ensures var page := List(moment.records, moment.cutoff, filter, limit, cursor);
      var numbers := Numbers(page.records);
      && Descending(numbers) && (forall n | n in numbers :: Below(n, cursor))
      && (page.nextCursor.Some? ==>
            Below(page.nextCursor.value, cursor) && forall n | n in numbers :: n >= page.nextCursor.value)
  {
    PageIsExact(moment.records, moment.cutoff, filter, limit, cursor);
    var page := List(moment.records, moment.cutoff, filter, limit, cursor);
    var numbers := Numbers(page.records);
    forall n | n in numbers ensures Below(n, cursor) {
      var i :| 0 <= i < |numbers| && numbers[i] == n;
      assert page.records[i] in page.records;
    }
    if page.nextCursor.Some? {
      assert Last(numbers) in numbers;
    }
  }

  lemma DescendingConcat(a: seq<nat>, b: seq<nat>, bound: nat)
    requires Descending(a) && Descending(b)
    requires (forall n | n in a :: n >= bound) && (forall n | n in b :: n < bound)
    ensures Descending(a + b)
  {
    forall i, j | 0 <= i < j < |a + b| ensures (a + b)[i] > (a + b)[j] {
      assert i < |a| <= j ==> a[i] in a && b[j - |a|] in b;
    }
  }

  lemma {:induction false} WalkDescends(moments: seq<Moment>, filter: Filter, limit: int, cursor: Option<nat>)
    requires AllDistinct(moments)
    ensures var numbers := AllNumbers(Walk(moments, filter, limit, cursor));
      Descending(numbers) && forall n | n in numbers :: Below(n, cursor)
  {
    hide List, Descending, Numbers;
    if moments == [] {
      NothingDescends();
    } else {
      PageDescends(moments[0], filter, limit, cursor);
      var page := List(moments[0].records, moments[0].cutoff, filter, limit, cursor);
      var pages := Walk(moments, filter, limit, cursor);
      if page.nextCursor.Some? {
        var rest := Walk(moments[1..], filter, limit, page.nextCursor);
        WalkDescends(moments[1..], filter, limit, page.nextCursor);
        assert pages[1..] == rest;
        DescendingConcat(Numbers(page.records), AllNumbers(rest), page.nextCursor.value);
      } else {
        assert pages[1..] == [];
        assert AllNumbers(pages) == Numbers(page.records);
      }
    }
  }

  lemma NothingDescends()
    ensures Descending([])
  {}

  lemma {:induction false} WalkFinds(moments: seq<Moment>, filter: Filter, limit: int, cursor: Option<nat>, n: nat)
    requires AllDistinct(moments)
    requires Finished(Walk(moments, filter, limit, cursor)) && Below(n, cursor)
    requires forall i | 0 <= i < |Walk(moments, filter, limit, cursor)| && i < |moments| ::
      Visible(moments[i].records, moments[i].cutoff, filter, n)
    ensures n in AllNumbers(Walk(moments, filter, limit, cursor))
  {
    var pages := Walk(moments, filter, limit, cursor);
    PageIsExact(moments[0].records, moments[0].cutoff, filter, limit, cursor);
    assert Visible(moments[0].records, moments[0].cutoff, filter, n);
    var page := pages[0];
    if n !in Numbers(page.records) {
      var rest := Walk(moments[1..], filter, limit, page.nextCursor);
      assert pages[1..] == rest;
      forall i | 0 <= i < |rest| && i < |moments[1..]|
        ensures Visible(moments[1..][i].records, moments[1..][i].cutoff, filter, n)
      {
        assert Visible(moments[i + 1].records, moments[i + 1].cutoff, filter, n);
      }
      WalkFinds(moments[1..], filter, limit, page.nextCursor, n);
    }
  }

  /** A descending sequence of naturals below a bound is no longer than the bound. */
  lemma {:induction false} DescendingIsShort(s: seq<nat>, bound: nat)
    requires Descending(s) && forall n | n in s :: n < bound
    ensures |s| <= bound
    ensures s != [] ==> Last(s) + |s| <= bound
  {
    if s == [] {
    } else {
      assert s[0] in s;
      forall n | n in s[1..] ensures n < s[0] {
        var i :| 0 <= i < |s[1..]| && s[1..][i] == n;
        assert s[i + 1] == n;
      }
      DescendingIsShort(s[1..], s[0]);
      if |s| > 1 {
        assert Last(s) == Last(s[1..]);
      }
    }
  }

  lemma OneMore(n: nat, size: nat)
    ensures n * size == (n - 1) * size + size
  {}

  /** A full page uses up as many numbers below the bound as it has records. */
  lemma FullPageSpends(moment: Moment, filter: Filter, limit: int, cursor: Option<nat>, bound: nat)
    requires Distinct(moment.records)
    requires cursor.Some? ==> cursor.value <= bound
    requires cursor.None? ==> forall r | r in moment.records :: r.sequence < bound
    ensures var page := List(moment.records, moment.cutoff, filter, limit, cursor);
      page.nextCursor.Some? ==> page.nextCursor.value + SafeLimit(limit) <= bound
  {
    PageIsExact(moment.records, moment.cutoff, filter, limit, cursor);
    var page := List(moment.records, moment.cutoff, filter, limit, cursor);
    var numbers := Numbers(page.records);
    hide List, Visible, Matches, SafeLimit, IsRetained;
    forall n | n in numbers ensures n < bound {
      var i :| 0 <= i < |numbers| && numbers[i] == n;
      assert page.records[i] in page.records;
    }
    DescendingIsShort(numbers, bound);
  }

  /** From a cursor `c`, no walk is longer than `1 + c / limit` pages, whatever happens between them. */
  lemma {:induction false} WalkEnds(moments: seq<Moment>, filter: Filter, limit: int, cursor: Option<nat>, bound: nat)
    requires AllDistinct(moments)
    requires cursor.Some? ==> cursor.value <= bound
    requires moments != [] && cursor.None? ==> forall r | r in moments[0].records :: r.sequence < bound
    ensures (|Walk(moments, filter, limit, cursor)| - 1) * SafeLimit(limit) <= bound
  {
    hide List, SafeLimit;
    if moments == [] {
    } else {
      var size := SafeLimit(limit);
      var page := List(moments[0].records, moments[0].cutoff, filter, limit, cursor);
      FullPageSpends(moments[0], filter, limit, cursor, bound);
      if page.nextCursor.Some? {
        WalkEnds(moments[1..], filter, limit, page.nextCursor, bound - size);
        OneMore(|Walk(moments[1..], filter, limit, page.nextCursor)|, size);
      }
    }
  }

  /** A walk that is given more moments than it has pages has come to its end. */
  lemma {:induction false} WalkFinishes(moments: seq<Moment>, filter: Filter, limit: int, cursor: Option<nat>)
    requires |Walk(moments, filter, limit, cursor)| < |moments|
    ensures Finished(Walk(moments, filter, limit, cursor))
  {
    hide List;
    var page := List(moments[0].records, moments[0].cutoff, filter, limit, cursor);
    if page.nextCursor.Some? {
      WalkFinishes(moments[1..], filter, limit, page.nextCursor);
    }
  }

  // ------------------------------------- walking over a ledger in use

  /** The moments at which pages are read while batches of operations run in between. */
  function Moments(l: Ledger, batches: seq<seq<Op>>, cutoffs: seq<int>): seq<Moment>
    requires |cutoffs| == |batches| + 1
    decreases |batches|
  {
    [Moment(l.records, cutoffs[0])] +
    if batches == [] then [] else Moments(ApplyAll(l, batches[0]), batches[1..], cutoffs[1..])
  }

  lemma {:induction false} MomentsAreDistinct(l: Ledger, batches: seq<seq<Op>>, cutoffs: seq<int>)
    requires |cutoffs| == |batches| + 1 && Valid(l)
    ensures AllDistinct(Moments(l, batches, cutoffs))
    decreases |batches|
  {
    if batches == [] {
    } else {
      LedgerInvariant(l, batches[0]);
      MomentsAreDistinct(ApplyAll(l, batches[0]), batches[1..], cutoffs[1..]);
    }
  }

  /**
    Following the cursor from the first page to the end, with any operations between the pages, lists numbers in
    strictly descending order, all of them given out before the walk started, within a bounded number of pages,
    and contains every number that is visible whenever a page is read.
   */
  lemma WalkReturnsEachOnce(l: Ledger, batches: seq<seq<Op>>, cutoffs: seq<int>, filter: Filter, limit: int)
    requires |cutoffs| == |batches| + 1 && Valid(l)
    ensures var moments := Moments(l, batches, cutoffs);
      var pages := Walk(moments, filter, limit, None);
      && Descending(AllNumbers(pages))
      && (forall n | n in AllNumbers(pages) :: n < l.nextSequence)
      && (|pages| - 1) * SafeLimit(limit) <= l.nextSequence
      && (|pages| < |moments| ==> Finished(pages))
      && (Finished(pages) ==>
            forall n: nat | (forall i | 0 <= i < |pages| && i < |moments| ::
              Visible(moments[i].records, moments[i].cutoff, filter, n)) ::
              n in AllNumbers(pages))
  {
    var moments := Moments(l, batches, cutoffs);
    var pages := Walk(moments, filter, limit, None);
    MomentsAreDistinct(l, batches, cutoffs);
    WalkDescends(moments, filter, limit, None);
    WalkEnds(moments, filter, limit, None, l.nextSequence);
    FirstPageBoundsAll(l, moments, filter, limit);
    if |pages| < |moments| {
      WalkFinishes(moments, filter, limit, None);
    }
    if Finished(pages) {
      forall n: nat | forall i | 0 <= i < |pages| && i < |moments| ::
        Visible(moments[i].records, moments[i].cutoff, filter, n)
        ensures n in AllNumbers(pages)
      {
        WalkFinds(moments, filter, limit, None, n);
      }
    }
  }

  lemma FirstPageBoundsAll(l: Ledger, moments: seq<Moment>, filter: Filter, limit: int)
    requires Valid(l) && moments != [] && moments[0].records == l.records && AllDistinct(moments)
    ensures forall n | n in AllNumbers(Walk(moments, filter, limit, None)) :: n < l.nextSequence
  {
    PageIsExact(moments[0].records, moments[0].cutoff, filter, limit, None);
    var pages := Walk(moments, filter, limit, None);
    var first := Numbers(pages[0].records);
    forall n | n in first ensures n < l.nextSequence {
      var i :| 0 <= i < |first| && first[i] == n;
      assert pages[0].records[i] in pages[0].records;
    }
    if pages[0].nextCursor.Some? {
      assert pages[1..] == Walk(moments[1..], filter, limit, pages[0].nextCursor);
      WalkDescends(moments[1..], filter, limit, pages[0].nextCursor);
      assert Last(first) in first;
    } else {
      assert pages[1..] == [];
    }
  }
}
