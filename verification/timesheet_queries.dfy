/** The read side of the timesheet controller: `parseBoolean`, the store
    query and local ordering of `fetchEntries`, the conjunctive filter
    pipeline `applyFilters` and the per-user summary fold. The collection is
    a sequence of documents; the store's own ordering is modelled by the
    (date, document id) order Firestore applies to an `orderBy('date')`
    query. */
module TimesheetQueries {
  import opened Common
  import opened Strings
  import opened Json
  import opened Sorting
  import opened TimeOfDay
  import opened Timesheets
  import Lists

  // ---------------------------------------------------------------- parseBoolean

  const TrueWords: seq<string> := ["true", "1", "yes", "si"]

  /** `parseBoolean`: undefined stays undefined, a boolean is itself, and
      anything else is true exactly when its string form, lower-cased, is
      one of "true", "1", "yes" or "si". */
  function ParseBoolean(value: Option<Value>): (r: Option<bool>)
    ensures r.None? <==> value.None?
    ensures value.Some? && value.value.JBool? ==> r == Some(value.value.b)
  {
    match value
    case None => None
    case Some(JBool(b)) => Some(b)
    case Some(v) => Some(Lower(ToStr(v)) in TrueWords)
  }

  /** The words are recognised in any letter case. */
  lemma ParseBooleanIgnoresCase(s: string)
    ensures ParseBoolean(Some(JStr(s))) == ParseBoolean(Some(JStr(Lower(s))))
  {
    LowerIdempotent(s);
  }

  lemma ParseBooleanExamples()
    ensures ParseBoolean(Some(JStr("SI"))) == Some(true)
    ensures ParseBoolean(Some(JStr("Yes"))) == Some(true)
    ensures ParseBoolean(Some(JStr("0"))) == Some(false)
    ensures ParseBoolean(Some(JStr(""))) == Some(false)
    ensures ParseBoolean(Some(JBool(false))) == Some(false)
  {
    assert Lower("SI") == "si";
    assert Lower("Yes") == "yes";
    assert Lower("0") == "0";
    assert Lower("") == "";
  }

  // ---------------------------------------------------------------- fetchEntries

  /** A query-string condition is applied when present and not ''. */
  predicate Given(o: Option<string>) {
    o.Some? && o.value != ""
  }

  /** The `where` clauses of `fetchEntries`: owner, then either one date or a
      from/to range on the date strings. */
  datatype Scope = Scope(userId: Option<string>, date: Option<string>, from: Option<string>, to: Option<string>)

  predicate InScope(scope: Scope, e: Entry) {
    (Given(scope.userId) ==> e.userId == scope.userId.value) && DateInScope(scope, e.date)
  }

  predicate DateInScope(scope: Scope, date: string) {
    if Given(scope.date) then date == scope.date.value
    else (Given(scope.from) ==> LexLe(scope.from.value, date)) && (Given(scope.to) ==> LexLe(date, scope.to.value))
  }

  function Matching(docs: seq<Doc>, scope: Scope): (r: seq<Doc>)
    ensures forall d :: d in r <==> d in docs && InScope(scope, d.record.entry)
    ensures |r| <= |docs|
  {
    if |docs| == 0 then []
    else if InScope(scope, docs[0].record.entry) then [docs[0]] + Matching(docs[1..], scope)
    else Matching(docs[1..], scope)
  }

  /** `Math.min(Number(limit) || 500, 1000)`, where `limit` is the number
      `Number` produced (None for NaN). */
  function QueryLimit(limit: Option<nat>): (n: nat)
    ensures 1 <= n <= 1000
  {
    Min(if limit.None? || limit.value == 0 then 500 else limit.value, 1000)
  }

  /** A query-string parameter through `Number`: absent is NaN. */
  function NumberParam(p: Option<string>): Option<nat> {
    if p.None? then None else NumberOf(p.value)
  }

  /** Two (date, id) keys in lexicographic order. */
  predicate KeyLe(d1: string, k1: string, d2: string, k2: string) {
    if d1 == d2 then LexLe(k1, k2) else LexLe(d1, d2)
  }

  /** The order of the store query: by date, ties by document id, both in
      the requested direction. */
  function StoreLe(asc: bool): (Doc, Doc) -> bool {
    (a: Doc, b: Doc) =>
      if asc then KeyLe(a.record.entry.date, a.id, b.record.entry.date, b.id)
      else KeyLe(b.record.entry.date, b.id, a.record.entry.date, a.id)
  }

  /** `a.startMinutes ?? parseTimeToMinutes(a.startTime) ?? 0`. */
  function StartKey(e: Entry): int {
    if e.startMinutes.Some? then e.startMinutes.value
    else var p := ParseTimeToMinutes(e.startTime); if p.Some? then p.value else 0
  }

  predicate DateThenStart(a: Entry, b: Entry) {
    if a.date == b.date then StartKey(a) <= StartKey(b) else LexLe(a.date, b.date)
  }

  /** The comparator of `fetchEntries` as a "may come first" relation: by
      date, then by start minute, both in the requested direction. */
  function EntryLe(asc: bool): (Doc, Doc) -> bool {
    (a: Doc, b: Doc) =>
      if asc then DateThenStart(a.record.entry, b.record.entry)
      else DateThenStart(b.record.entry, a.record.entry)
  }

  function Take<T>(s: seq<T>, n: nat): (r: seq<T>)
    ensures |r| <= n && |r| <= |s|
    ensures n >= |s| ==> r == s
    ensures r == s[..|r|]
  {
    if n < |s| then s[..n] else s
  }

  /** `fetchEntries`: the matching documents in store order, cut at the
      limit, then sorted by date and start minute. The direction is 'asc'
      only when asked for; the default is 'desc'. */
  function FetchEntries(docs: seq<Doc>, scope: Scope, limit: Option<nat>, order: Option<string>): (r: seq<Doc>)
    ensures |r| <= QueryLimit(limit) && |r| <= |docs|
  {
    var asc := order == Some("asc");
    SortBy(Take(SortBy(Matching(docs, scope), StoreLe(asc)), QueryLimit(limit)), EntryLe(asc))
  }

  lemma KeyLeTotalPreorder()
    ensures forall d1, k1, d2, k2 :: KeyLe(d1, k1, d2, k2) || KeyLe(d2, k2, d1, k1)
    ensures forall d1, k1, d2, k2, d3, k3 ::
      KeyLe(d1, k1, d2, k2) && KeyLe(d2, k2, d3, k3) ==> KeyLe(d1, k1, d3, k3)
  {
    forall d1, k1, d2, k2 ensures KeyLe(d1, k1, d2, k2) || KeyLe(d2, k2, d1, k1) {
      LexLeTotal(d1, d2);
      LexLeTotal(k1, k2);
    }
    forall d1, k1, d2, k2, d3, k3 | KeyLe(d1, k1, d2, k2) && KeyLe(d2, k2, d3, k3)
      ensures KeyLe(d1, k1, d3, k3)
    {
      if d1 == d2 && d2 == d3 {
        LexLeTrans(k1, k2, k3);
      } else if d1 != d2 && d2 != d3 {
        LexLeTrans(d1, d2, d3);
        if d1 == d3 {
          LexLeAntisym(d1, d2);
        }
      }
    }
  }

  lemma StoreLeTotalPreorder(asc: bool)
    ensures TotalPreorder(StoreLe(asc))
  {
    KeyLeTotalPreorder();
  }

  lemma DateThenStartTotalPreorder()
    ensures forall a, b :: DateThenStart(a, b) || DateThenStart(b, a)
    ensures forall a, b, c :: DateThenStart(a, b) && DateThenStart(b, c) ==> DateThenStart(a, c)
  {
    forall a, b ensures DateThenStart(a, b) || DateThenStart(b, a) {
      LexLeTotal(a.date, b.date);
    }
    forall a, b, c | DateThenStart(a, b) && DateThenStart(b, c)
      ensures DateThenStart(a, c)
    {
      if a.date != b.date && b.date != c.date {
        LexLeTrans(a.date, b.date, c.date);
        if a.date == c.date {
          LexLeAntisym(a.date, b.date);
        }
      }
    }
  }

  lemma EntryLeTotalPreorder(asc: bool)
    ensures TotalPreorder(EntryLe(asc))
  {
    DateThenStartTotalPreorder();
  }

  /** What `fetchEntries` returns: at most the limit (never more than 1000)
      of the documents in scope, ordered by date then start minute in the
      requested direction; all of them when they fit under the limit, and
      otherwise exactly the first `limit` of them in the store's (date, id)
      order. */
  lemma FetchProperties(docs: seq<Doc>, scope: Scope, limit: Option<nat>, order: Option<string>)
    ensures var r := FetchEntries(docs, scope, limit, order);
      |r| <= QueryLimit(limit) <= 1000
      && (forall d :: d in r ==> d in docs && InScope(scope, d.record.entry))
      && SortedBy(r, EntryLe(order == Some("asc")))
      && (|Matching(docs, scope)| <= QueryLimit(limit) ==> multiset(r) == multiset(Matching(docs, scope)))
      && |r| == Min(|Matching(docs, scope)|, QueryLimit(limit))
      && SortedBy(SortBy(Matching(docs, scope), StoreLe(order == Some("asc"))), StoreLe(order == Some("asc")))
      && multiset(r) == multiset(SortBy(Matching(docs, scope), StoreLe(order == Some("asc")))[..|r|])
  {
    var asc := order == Some("asc");
    var m := Matching(docs, scope);
    var stored := SortBy(m, StoreLe(asc));
    var cut := Take(stored, QueryLimit(limit));
    var r := SortBy(cut, EntryLe(asc));
    EntryLeTotalPreorder(asc);
    SortBySorted(cut, EntryLe(asc));
    StoreLeTotalPreorder(asc);
    SortBySorted(m, StoreLe(asc));
    assert |stored| == |m| by { assert |multiset(stored)| == |multiset(m)|; }
    assert |r| == |cut| by { assert |multiset(r)| == |multiset(cut)|; }
    forall d | d in r ensures d in docs && InScope(scope, d.record.entry) {
      assert d in multiset(r);
      assert d in multiset(cut);
      assert d in stored;
      assert d in multiset(stored);
      assert d in m;
    }
  }

  /** `listMyTimesheets`: the caller's own entries only (when the caller has
      an id), at most 200, oldest first. */
  lemma ListMyOwnEntries(docs: seq<Doc>, uid: string, date: Option<string>, from: Option<string>, to: Option<string>)
    requires uid != ""
    ensures var r := FetchEntries(docs, Scope(Some(uid), date, from, to), Some(200), Some("asc"));
      |r| <= 200
      && (forall d :: d in r ==> d in docs && d.record.entry.userId == uid)
      && SortedBy(r, EntryLe(true))
  {
    FetchProperties(docs, Scope(Some(uid), date, from, to), Some(200), Some("asc"));
  }

  /** `Math.min(Number(req.query.limit) || 1000, 2000)`, the limit the summary
      endpoint hands to `fetchEntries`. */
  function SummaryLimit(limit: Option<string>): nat {
    var n := NumberParam(limit);
    Min(if n.None? || n.value == 0 then 1000 else n.value, 2000)
  }

  /** The summary's own ceiling of 2000 never takes effect: `fetchEntries`
      caps every limit at 1000, so a summary reads at most 1000 entries, and
      exactly 1000 when no limit is given. */
  lemma SummaryLimitCappedAt1000(limit: Option<string>)
    ensures QueryLimit(Some(SummaryLimit(limit))) <= 1000
    ensures limit.None? ==> SummaryLimit(limit) == 1000 && QueryLimit(Some(SummaryLimit(limit))) == 1000
    ensures NumberParam(limit).Some? && NumberParam(limit).value >= 1000 ==>
              SummaryLimit(limit) >= 1000 && QueryLimit(Some(SummaryLimit(limit))) == 1000
  {
  }

  // ---------------------------------------------------------------- applyFilters

  /** The filter parameters, as the list and summary endpoints read them:
      text needles, `isHoliday` already through `parseBoolean`, and the raw
      `nightOnly` value. */
  datatype Filters = Filters(
    client: Option<string>,
    task: Option<string>,
    workOrder: Option<string>,
    user: Option<string>,
    q: Option<string>,
    isHoliday: Option<bool>,
    nightOnly: Option<Value>)

  /** One `result.filter(...)` step of the pipeline, its needle already
      trimmed and lower-cased. */
  datatype Criterion =
    | ClientHas(needle: string)
    | TaskHas(needle: string)
    | WorkOrderHas(needle: string)
    | UserHas(needle: string)
    | HolidayIs(holiday: bool)
    | NightOnly
    | SearchHas(needle: string)

  predicate Holds(c: Criterion, e: Entry) {
    match c
    case ClientHas(n) => Contains(LowerTrim(e.client), n)
    case TaskHas(n) => Contains(LowerTrim(e.task), n)
    case WorkOrderHas(n) => Contains(LowerTrim(e.workOrder), n)
    case UserHas(n) => Contains(LowerTrim(e.userDisplayName), n) || Contains(LowerTrim(e.username), n)
    case HolidayIs(b) => e.isHoliday == b
    case NightOnly => e.nightMinutes > 0
    case SearchHas(n) => Contains(LowerTrim(e.searchText), n)
  }

  /** `result.filter(item => ...)` for one criterion. */
  function Keep(docs: seq<Doc>, c: Criterion): (r: seq<Doc>)
    ensures forall d :: d in r <==> d in docs && Holds(c, d.record.entry)
  {
    if |docs| == 0 then []
    else if Holds(c, docs[0].record.entry) then [docs[0]] + Keep(docs[1..], c)
    else Keep(docs[1..], c)
  }

  /** Criterion `i` of the pipeline, read as a condition on an entry: it
      holds when the parameter is not given. */
  predicate Step(f: Filters, i: nat, e: Entry) {
    if i == 0 then Given(f.client) ==> Contains(LowerTrim(e.client), LowerTrim(f.client.value))
    else if i == 1 then Given(f.task) ==> Contains(LowerTrim(e.task), LowerTrim(f.task.value))
    else if i == 2 then Given(f.workOrder) ==> Contains(LowerTrim(e.workOrder), LowerTrim(f.workOrder.value))
    else if i == 3 then Given(f.user) ==>
      Contains(LowerTrim(e.userDisplayName), LowerTrim(f.user.value))
      || Contains(LowerTrim(e.username), LowerTrim(f.user.value))
    else if i == 4 then f.isHoliday.Some? ==> e.isHoliday == f.isHoliday.value
    else if i == 5 then ParseBoolean(f.nightOnly) == Some(true) ==> e.nightMinutes > 0
    else Given(f.q) ==> Contains(LowerTrim(e.searchText), LowerTrim(f.q.value))
  }

  predicate UpTo(f: Filters, n: nat, e: Entry) {
    forall i :: 0 <= i < n ==> Step(f, i, e)
  }

  /** An entry passes the filters when it meets every given criterion. */
  predicate Matches(f: Filters, e: Entry) {
    UpTo(f, 7, e)
  }

  /** The entries meeting the first `n` criteria, in their original order. */
  function SelectUpTo(docs: seq<Doc>, f: Filters, n: nat): seq<Doc> {
    if |docs| == 0 then []
    else if UpTo(f, n, docs[0].record.entry) then [docs[0]] + SelectUpTo(docs[1..], f, n)
    else SelectUpTo(docs[1..], f, n)
  }

  function Select(docs: seq<Doc>, f: Filters): seq<Doc> {
    SelectUpTo(docs, f, 7)
  }

  lemma {:induction false} KeepSelect(docs: seq<Doc>, f: Filters, n: nat, c: Criterion)
    requires forall d :: d in docs ==> (UpTo(f, n + 1, d.record.entry) <==> UpTo(f, n, d.record.entry) && Holds(c, d.record.entry))
    ensures Keep(SelectUpTo(docs, f, n), c) == SelectUpTo(docs, f, n + 1)
  {
    if |docs| > 0 {
      assert docs[0] in docs;
      KeepSelect(docs[1..], f, n, c);
    }
  }

  lemma {:induction false} SelectSame(docs: seq<Doc>, f: Filters, n: nat)
    requires forall d :: d in docs ==> (UpTo(f, n + 1, d.record.entry) <==> UpTo(f, n, d.record.entry))
    ensures SelectUpTo(docs, f, n) == SelectUpTo(docs, f, n + 1)
  {
    if |docs| > 0 {
      assert docs[0] in docs;
      SelectSame(docs[1..], f, n);
    }
  }

  lemma {:induction false} SelectNone(docs: seq<Doc>, f: Filters)
    ensures SelectUpTo(docs, f, 0) == docs
  {
    if |docs| > 0 {
      SelectNone(docs[1..], f);
    }
  }

  /** Whether stage `n` of the pipeline filters at all, and by what. */
  predicate Active(f: Filters, n: nat) {
    if n == 0 then Given(f.client)
    else if n == 1 then Given(f.task)
    else if n == 2 then Given(f.workOrder)
    else if n == 3 then Given(f.user)
    else if n == 4 then f.isHoliday.Some?
    else if n == 5 then ParseBoolean(f.nightOnly) == Some(true)
    else Given(f.q)
  }

  function CriterionAt(f: Filters, n: nat): Criterion
    requires Active(f, n)
  {
    if n == 0 then ClientHas(LowerTrim(f.client.value))
    else if n == 1 then TaskHas(LowerTrim(f.task.value))
    else if n == 2 then WorkOrderHas(LowerTrim(f.workOrder.value))
    else if n == 3 then UserHas(LowerTrim(f.user.value))
    else if n == 4 then HolidayIs(f.isHoliday.value)
    else if n == 5 then NightOnly
    else SearchHas(LowerTrim(f.q.value))
  }

  lemma StepIsCriterion(f: Filters, n: nat, e: Entry)
    ensures Active(f, n) ==> (Step(f, n, e) <==> Holds(CriterionAt(f, n), e))
    ensures !Active(f, n) ==> Step(f, n, e)
  {
  }

  /** One stage of the pipeline: filtering by criterion `n` when its
      parameter is given, leaving the list alone otherwise. */
  lemma Stage(docs: seq<Doc>, f: Filters, n: nat)
    ensures Active(f, n) ==> Keep(SelectUpTo(docs, f, n), CriterionAt(f, n)) == SelectUpTo(docs, f, n + 1)
    ensures !Active(f, n) ==> SelectUpTo(docs, f, n) == SelectUpTo(docs, f, n + 1)
  {
    forall e ensures UpTo(f, n + 1, e) <==> UpTo(f, n, e) && Step(f, n, e) {
      if UpTo(f, n, e) && Step(f, n, e) {
        forall i | 0 <= i < n + 1 ensures Step(f, i, e) {
          if i < n {
            assert Step(f, i, e);
          }
        }
      }
    }
    forall e ensures Active(f, n) ==> (Step(f, n, e) <==> Holds(CriterionAt(f, n), e))
      ensures !Active(f, n) ==> Step(f, n, e)
    {
      StepIsCriterion(f, n, e);
    }
    if Active(f, n) {
      KeepSelect(docs, f, n, CriterionAt(f, n));
    } else {
      SelectSame(docs, f, n);
    }
  }

  /** The list after the first `n` stages of the pipeline. */
  function Stages(docs: seq<Doc>, f: Filters, n: nat): seq<Doc> {
    if n == 0 then docs
    else if Active(f, n - 1) then Keep(Stages(docs, f, n - 1), CriterionAt(f, n - 1))
    else Stages(docs, f, n - 1)
  }

  /** Running the stages one after another keeps exactly the entries that
      meet all criteria so far, in their original order. */
  lemma {:induction false} StagesSelect(docs: seq<Doc>, f: Filters, n: nat)
    ensures Stages(docs, f, n) == SelectUpTo(docs, f, n)
  {
    if n == 0 {
      SelectNone(docs, f);
    } else {
      var m := n - 1;
      StagesSelect(docs, f, m);
      Stage(docs, f, m);
      if Active(f, m) {
        calc {
          Stages(docs, f, n);
          Keep(Stages(docs, f, m), CriterionAt(f, m));
          Keep(SelectUpTo(docs, f, m), CriterionAt(f, m));
        }
      }
    }
  }

  /** `applyFilters`: `result` starts as a copy of the entries and is
      narrowed by one `filter` per given parameter, in the fixed order
      client, task, workOrder, user, isHoliday, nightOnly, q. */
  method ApplyFilters(entries: seq<Doc>, f: Filters) returns (result: seq<Doc>)
    ensures result == Select(entries, f)
  {
    result := entries;
    if Given(f.client) {
      result := Keep(result, ClientHas(LowerTrim(f.client.value)));
    }
    assert result == Stages(entries, f, 1);
    if Given(f.task) {
      result := Keep(result, TaskHas(LowerTrim(f.task.value)));
    }
    assert result == Stages(entries, f, 2);
    if Given(f.workOrder) {
      result := Keep(result, WorkOrderHas(LowerTrim(f.workOrder.value)));
    }
    assert result == Stages(entries, f, 3);
    if Given(f.user) {
      result := Keep(result, UserHas(LowerTrim(f.user.value)));
    }
    assert result == Stages(entries, f, 4);
    if f.isHoliday.Some? {
      result := Keep(result, HolidayIs(f.isHoliday.value));
    }
    assert result == Stages(entries, f, 5);
    if ParseBoolean(f.nightOnly) == Some(true) {
      result := Keep(result, NightOnly);
    }
    assert result == Stages(entries, f, 6);
    if Given(f.q) {
      result := Keep(result, SearchHas(LowerTrim(f.q.value)));
    }
    assert result == Stages(entries, f, 7);
    StagesSelect(entries, f, 7);
  }



  /** `r` occurs in `s` in the same order, possibly with gaps. */
  predicate SubsequenceOf<T(==)>(r: seq<T>, s: seq<T>)
    decreases |s|
  {
    |r| == 0 || (|s| > 0 && if r[0] == s[0] then SubsequenceOf(r[1..], s[1..]) else SubsequenceOf(r, s[1..]))
  }

  /** The filtered list is the input with the failing entries removed: it
      keeps their order, and an entry is in it exactly when it meets every
      given criterion. */
  lemma {:induction false} SelectIsOrderedSubset(docs: seq<Doc>, f: Filters)
    ensures SubsequenceOf(Select(docs, f), docs)
    ensures forall d :: d in Select(docs, f) <==> d in docs && Matches(f, d.record.entry)
  {
    if |docs| > 0 {
      SelectIsOrderedSubset(docs[1..], f);
      var r := Select(docs, f);
      if !Matches(f, docs[0].record.entry) && |r| > 0 {
        assert r[0] in Select(docs[1..], f);
        assert r[0] != docs[0];
      }
    }
  }

  /** Matching is insensitive to letter case on both sides: replacing every
      text parameter by its lower-case form changes nothing. */
  lemma FiltersIgnoreCase(f: Filters, e: Entry)
    ensures Matches(f, e) == Matches(LowerFilters(f), e)
  {
    var g := LowerFilters(f);
    forall i | 0 <= i < 7 ensures Step(f, i, e) == Step(g, i, e) {
      if i == 0 && Given(f.client) { LowerTrimOfLower(f.client.value); }
      if i == 1 && Given(f.task) { LowerTrimOfLower(f.task.value); }
      if i == 2 && Given(f.workOrder) { LowerTrimOfLower(f.workOrder.value); }
      if i == 3 && Given(f.user) { LowerTrimOfLower(f.user.value); }
      if i == 6 && Given(f.q) { LowerTrimOfLower(f.q.value); }
    }
  }

  lemma LowerTrimOfLower(s: string)
    ensures LowerTrim(Lower(s)) == LowerTrim(s)
  {
    TrimLowerCommute(s);
    LowerIdempotent(Trim(s));
  }

  function LowerFilters(f: Filters): Filters {
    f.(client := LowerOpt(f.client), task := LowerOpt(f.task), workOrder := LowerOpt(f.workOrder),
       user := LowerOpt(f.user), q := LowerOpt(f.q))
  }

  function LowerOpt(o: Option<string>): (r: Option<string>)
    ensures Given(r) == Given(o)
  {
    if o.Some? then Some(Lower(o.value)) else None
  }

  // ---------------------------------------------------------------- summary

  /** A line of the summary: per user, minutes split into normal, holiday and
      night. */
  datatype SummaryRow = SummaryRow(
    userId: string,
    displayName: string,
    username: string,
    normalMinutes: int,
    holidayMinutes: int,
    nightMinutes: int)

  /** The normal minutes an entry contributes: none on a holiday, otherwise
      its length minus its night minutes, never below zero. */
  function NormalMinutes(e: Entry): int {
    if e.isHoliday then 0 else Max(e.durationMinutes - e.nightMinutes, 0)
  }

  function NewRow(e: Entry): SummaryRow {
    SummaryRow(e.userId, OrElse(e.userDisplayName, e.username), e.username, 0, 0, 0)
  }

  function AddTo(row: SummaryRow, e: Entry): SummaryRow {
    row.(normalMinutes := row.normalMinutes + NormalMinutes(e),
         holidayMinutes := row.holidayMinutes + e.holidayMinutes,
         nightMinutes := row.nightMinutes + e.nightMinutes)
  }

  /** The reducer's accumulator: a row per user id, and the ids in the
      order they were first met (the order `Object.values` lists them). */
  datatype Tally = Tally(rows: map<string, SummaryRow>, order: seq<string>)

  /** The summary reducer over a prefix of the entries. */
  function Fold(docs: seq<Doc>): (t: Tally)
    ensures forall k :: k in t.order <==> k in t.rows
  {
    if |docs| == 0 then Tally(map[], [])
    else
      var t := Fold(docs[..|docs| - 1]);
      var e := docs[|docs| - 1].record.entry;
      var row := if e.userId in t.rows then t.rows[e.userId] else NewRow(e);
      Tally(t.rows[e.userId := AddTo(row, e)], if e.userId in t.rows then t.order else t.order + [e.userId])
  }

  /** `Object.values(acc)`. */
  function Values(t: Tally): seq<SummaryRow>
    requires forall k :: k in t.order <==> k in t.rows
  {
    seq(|t.order|, i requires 0 <= i < |t.order| => t.rows[t.order[i]])
  }

  predicate ByDisplayName(a: SummaryRow, b: SummaryRow) {
    LexLe(a.displayName, b.displayName)
  }

  /** The summary reducer: one pass over the filtered entries creating a row
      the first time a user id is met and adding the entry's minutes to it;
      then the rows sorted by display name. */
  method Summarize(filtered: seq<Doc>) returns (summary: seq<SummaryRow>)
    ensures summary == SortBy(Values(Fold(filtered)), ByDisplayName)
  {
    var acc: map<string, SummaryRow> := map[];
    var keys: seq<string> := [];
    for i := 0 to |filtered|
      invariant Tally(acc, keys) == Fold(filtered[..i])
    {
      assert filtered[..i + 1][..i] == filtered[..i];
      var entry := filtered[i].record.entry;
      var key := entry.userId;
      if key !in acc {
        acc := acc[key := NewRow(entry)];
        keys := keys + [key];
      }
      acc := acc[key := AddTo(acc[key], entry)];
    }
    assert filtered[..|filtered|] == filtered;
    var values := seq(|keys|, j requires 0 <= j < |keys| => acc[keys[j]]);
    assert values == Values(Fold(filtered));
    summary := SortBy(values, ByDisplayName);
  }

  /** The minutes of user `k` across the entries, per bucket. */
  function SumNormal(docs: seq<Doc>, k: string): int {
    if |docs| == 0 then 0
    else SumNormal(docs[..|docs| - 1], k)
         + (if docs[|docs| - 1].record.entry.userId == k then NormalMinutes(docs[|docs| - 1].record.entry) else 0)
  }

  function SumHoliday(docs: seq<Doc>, k: string): int {
    if |docs| == 0 then 0
    else SumHoliday(docs[..|docs| - 1], k)
         + (if docs[|docs| - 1].record.entry.userId == k then docs[|docs| - 1].record.entry.holidayMinutes else 0)
  }

  function SumNight(docs: seq<Doc>, k: string): int {
    if |docs| == 0 then 0
    else SumNight(docs[..|docs| - 1], k)
         + (if docs[|docs| - 1].record.entry.userId == k then docs[|docs| - 1].record.entry.nightMinutes else 0)
  }

  /** The first entry of user `k`, if any. */
  function FirstOf(docs: seq<Doc>, k: string): (r: Option<Entry>)
    ensures r.Some? ==> r.value.userId == k
    ensures r.None? <==> forall i :: 0 <= i < |docs| ==> docs[i].record.entry.userId != k
  {
    if |docs| == 0 then None
    else
      var p := FirstOf(docs[..|docs| - 1], k);
      if p.Some? then p
      else if docs[|docs| - 1].record.entry.userId == k then Some(docs[|docs| - 1].record.entry)
      else None
  }

  /** The fold keeps one row per user id that occurs, never repeats an id,
      and a user's row holds the sums of that user's entries in each bucket,
      with the names taken from the user's first entry. */
  lemma {:induction false} FoldTotals(docs: seq<Doc>, k: string)
    ensures var t := Fold(docs);
      (k in t.rows <==> FirstOf(docs, k).Some?)
      && (k in t.rows ==>
            t.rows[k] == AddTo(NewRow(FirstOf(docs, k).value), NoPrevious).(
              normalMinutes := SumNormal(docs, k),
              holidayMinutes := SumHoliday(docs, k),
              nightMinutes := SumNight(docs, k)))
  {
    if |docs| > 0 {
      var init := docs[..|docs| - 1];
      FoldTotals(init, k);
      var e := docs[|docs| - 1].record.entry;
      if FirstOf(init, k).None? && e.userId == k {
        assert SumNormal(init, k) == 0 by { SumsZero(init, k); }
        assert SumHoliday(init, k) == 0 by { SumsZero(init, k); }
        assert SumNight(init, k) == 0 by { SumsZero(init, k); }
      }
    }
  }

  lemma {:induction false} SumsZero(docs: seq<Doc>, k: string)
    requires FirstOf(docs, k).None?
    ensures SumNormal(docs, k) == 0 && SumHoliday(docs, k) == 0 && SumNight(docs, k) == 0
  {
    if |docs| > 0 {
      var init := docs[..|docs| - 1];
      assert forall i :: 0 <= i < |init| ==> init[i] == docs[i];
      SumsZero(init, k);
    }
  }

  /** Each user id appears once in the key order of the summary. */
  lemma {:induction false} FoldOrderDistinct(docs: seq<Doc>)
    ensures Lists.NoRepeats(Fold(docs).order)
  {
    if |docs| > 0 {
      var init := docs[..|docs| - 1];
      FoldOrderDistinct(init);
      var t := Fold(init);
      var k := docs[|docs| - 1].record.entry.userId;
      if k !in t.rows {
        var o := t.order + [k];
        assert Fold(docs).order == o;
        assert k !in t.order;
        forall i, j | 0 <= i < j < |o| ensures o[i] != o[j] {
          assert o[i] == t.order[i];
          if j < |t.order| {
            assert o[j] == t.order[j];
          } else {
            assert o[j] == k;
          }
        }
      } else {
        assert Fold(docs).order == t.order;
      }
    }
  }

  /** The summary lists every user once, ordered by display name, and each
      line carries that user's bucket sums. */
  lemma SummaryRowsPerUser(filtered: seq<Doc>, i: int)
    requires 0 <= i < |SortBy(Values(Fold(filtered)), ByDisplayName)|
    ensures var summary := SortBy(Values(Fold(filtered)), ByDisplayName);
      var row := summary[i];
      FirstOf(filtered, row.userId).Some?
      && row.holidayMinutes == SumHoliday(filtered, row.userId)
      && row.nightMinutes == SumNight(filtered, row.userId)
      && row.normalMinutes == SumNormal(filtered, row.userId)
      && row.displayName == OrElse(FirstOf(filtered, row.userId).value.userDisplayName,
                                   FirstOf(filtered, row.userId).value.username)
      && SortedBy(summary, ByDisplayName)
  {
    var t := Fold(filtered);
    var values := Values(t);
    var summary := SortBy(values, ByDisplayName);
    var row := summary[i];
    assert row in multiset(values);
    var j :| 0 <= j < |values| && values[j] == row;
    var k := t.order[j];
    assert k in t.rows && t.rows[k] == row;
    FoldTotals(filtered, k);
    forall a, b ensures LexLe(a, b) || LexLe(b, a) { LexLeTotal(a, b); }
    forall a, b, c | LexLe(a, b) && LexLe(b, c) ensures LexLe(a, c) { LexLeTrans(a, b, c); }
    SortBySorted(values, ByDisplayName);
  }

  // ---------------------------------------------------------------- endpoints

  /** The query string of the list and summary endpoints. */
  datatype Query = Query(
    userId: Option<string>,
    date: Option<string>,
    from: Option<string>,
    to: Option<string>,
    limit: Option<string>,
    client: Option<string>,
    task: Option<string>,
    workOrder: Option<string>,
    user: Option<string>,
    q: Option<string>,
    isHoliday: Option<string>,
    nightOnly: Option<string>)

  function AsValue(p: Option<string>): Option<Value> {
    if p.Some? then Some(JStr(p.value)) else None
  }

  function QueryFilters(q: Query): Filters {
    Filters(q.client, q.task, q.workOrder, q.user, q.q, ParseBoolean(AsValue(q.isHoliday)), AsValue(q.nightOnly))
  }

  /** `listTimesheets`: fetch (newest first, limit from the query), filter,
      and strip the internal fields. */
  function ListTimesheets(docs: seq<Doc>, q: Query): seq<seq<(string, Value)>> {
    var entries := FetchEntries(docs, Scope(q.userId, q.date, q.from, q.to), NumberParam(q.limit), None);
    var filtered := Select(entries, QueryFilters(q));
    seq(|filtered|, i requires 0 <= i < |filtered| => StripInternalFields(DocFields(filtered[i])))
  }

  /** The entries `summarizeTimesheets` folds: fetched oldest first by owner
      and date range (a `date` parameter is not read), then filtered. */
  function SummaryEntries(docs: seq<Doc>, q: Query): seq<Doc> {
    Select(FetchEntries(docs, Scope(q.userId, None, q.from, q.to), Some(SummaryLimit(q.limit)), Some("asc")), QueryFilters(q))
  }

  /** Filtering never lengthens the list. */
  lemma {:induction false} SelectUpToShorter(docs: seq<Doc>, f: Filters, n: nat)
    ensures |SelectUpTo(docs, f, n)| <= |docs|
  {
    if |docs| > 0 {
      SelectUpToShorter(docs[1..], f, n);
    }
  }

  /** The list endpoint answers at most the limit of entries, each the
      stripped form of a stored document that is in the query's scope and
      passes every filter of the query. */
  lemma ListTimesheetsProperties(docs: seq<Doc>, q: Query)
    ensures |ListTimesheets(docs, q)| <= QueryLimit(NumberParam(q.limit))
    ensures forall i :: 0 <= i < |ListTimesheets(docs, q)| ==>
      exists d :: (d in docs && InScope(Scope(q.userId, q.date, q.from, q.to), d.record.entry)
        && Matches(QueryFilters(q), d.record.entry)
        && ListTimesheets(docs, q)[i] == StripInternalFields(DocFields(d)))
  {
    var scope := Scope(q.userId, q.date, q.from, q.to);
    var entries := FetchEntries(docs, scope, NumberParam(q.limit), None);
    var filtered := Select(entries, QueryFilters(q));
    FetchProperties(docs, scope, NumberParam(q.limit), None);
    SelectIsOrderedSubset(entries, QueryFilters(q));
    SelectUpToShorter(entries, QueryFilters(q), 7);
    forall i | 0 <= i < |ListTimesheets(docs, q)|
      ensures exists d :: (d in docs && InScope(scope, d.record.entry)
        && Matches(QueryFilters(q), d.record.entry)
        && ListTimesheets(docs, q)[i] == StripInternalFields(DocFields(d)))
    {
      assert filtered[i] in filtered;
    }
  }

  /** The summary folds at most 1000 entries whatever limit is asked for,
      never reads the `date` parameter, and folds only stored documents of
      the owner and date range that pass every filter. */
  lemma SummaryEntriesProperties(docs: seq<Doc>, q: Query, otherDate: Option<string>)
    ensures |SummaryEntries(docs, q)| <= 1000
    ensures SummaryEntries(docs, q.(date := otherDate)) == SummaryEntries(docs, q)
    ensures forall d :: d in SummaryEntries(docs, q) ==>
      d in docs && InScope(Scope(q.userId, None, q.from, q.to), d.record.entry) && Matches(QueryFilters(q), d.record.entry)
  {
    var scope := Scope(q.userId, None, q.from, q.to);
    var entries := FetchEntries(docs, scope, Some(SummaryLimit(q.limit)), Some("asc"));
    FetchProperties(docs, scope, Some(SummaryLimit(q.limit)), Some("asc"));
    SelectIsOrderedSubset(entries, QueryFilters(q));
    SelectUpToShorter(entries, QueryFilters(q), 7);
    assert QueryFilters(q.(date := otherDate)) == QueryFilters(q);
  }
}
