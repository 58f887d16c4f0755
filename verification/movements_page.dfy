/** The audit-log page of the client: the rows newest first, the group
    filter, fifteen rows per page with the page number kept in range, the
    label shown for each entity, and the administrator's delete. */
module MovementsPage {
  import opened Common
  import opened Strings
  import opened Sorting
  import Lists
  import Text
  import Movements
  import MovementGroups

  /** A row of the log: its id ("" when absent), its entity ("" when
      absent) and its instant in milliseconds, already parsed from `at` or
      `timestamp` (0 when neither parses). */
  datatype Row = Row(id: string, entity: string, at: int)

  const PageSize: nat := 15

  // ---------------------------------------------------------------- order

  /** The comparator `parse(b) - parse(a)`: a row may come first when it is
      not older. */
  predicate NewerFirst(a: Row, b: Row) {
    a.at >= b.at
  }

  lemma NewerFirstTotalPreorder()
    ensures TotalPreorder(NewerFirst)
  {
  }

  /** `sortedRows`. */
  function SortRows(rows: seq<Row>): seq<Row> {
    SortBy(rows, NewerFirst)
  }

  // ---------------------------------------------------------------- filter

  /** The alias lists of the filter buttons. */
  function Aliases(): map<string, seq<string>> {
    MovementGroups.AliasesOf(MovementGroups.Groups)
  }

  /** Whether a row's entity is one of `names`. */
  predicate EntityIn(names: seq<string>, r: Row) {
    r.entity in names
  }

  /** The group filter of `filteredRows` (the text search is not modelled):
      "all" keeps every row, a filter with a non-empty alias list keeps the
      rows whose entity is in it, and any other filter keeps nothing. */
  function FilterRows(rows: seq<Row>, filter: string): seq<Row> {
    if filter == "all" then rows
    else if filter in Aliases() && |Aliases()[filter]| > 0 then Lists.Filter(rows, r => EntityIn(Aliases()[filter], r))
    else []
  }

  /** The rows on screen before paging. */
  function Visible(rows: seq<Row>, filter: string): seq<Row> {
    FilterRows(SortRows(rows), filter)
  }

  /** The rows on screen are newest first; "all" shows every row; a group's
      filter shows exactly the rows whose entity is the group's value or one
      of its aliases; any other filter shows nothing. */
  lemma VisibleProperties(rows: seq<Row>, filter: string)
    ensures SortedBy(Visible(rows, filter), NewerFirst)
    ensures filter == "all" ==> multiset(Visible(rows, filter)) == multiset(rows)
    ensures forall i :: 0 <= i < |MovementGroups.Groups| && filter == MovementGroups.Groups[i].value ==>
      forall r :: r in Visible(rows, filter) <==> r in rows && r.entity in MovementGroups.Names(MovementGroups.Groups[i])
    ensures filter != "all" && (forall i :: 0 <= i < |MovementGroups.Groups| ==> filter != MovementGroups.Groups[i].value) ==>
      Visible(rows, filter) == []
  {
    var sorted := SortRows(rows);
    NewerFirstTotalPreorder();
    SortBySorted(rows, NewerFirst);
    MovementGroups.AliasTable();
    var groups := MovementGroups.Groups;
    assert Aliases().Keys == {groups[0].value, groups[1].value, groups[2].value, groups[3].value};
    if filter != "all" && filter in Aliases() {
      FilterSorted(sorted, r => EntityIn(Aliases()[filter], r), NewerFirst);
      forall i | 0 <= i < |groups| && filter == groups[i].value
        ensures forall r :: r in Visible(rows, filter) <==> r in rows && r.entity in MovementGroups.Names(groups[i])
      {
        assert Aliases()[filter] == MovementGroups.Names(groups[i]);
        forall r ensures r in sorted <==> r in rows {
          assert r in sorted <==> r in multiset(sorted);
        }
      }
    }
  }

  // ---------------------------------------------------------------- pages

  /** `totalPages`: `max(1, ceil(n / 15))`. */
  function TotalPages(n: nat): (r: nat)
    ensures r >= 1
    ensures n <= r * PageSize
    ensures n == 0 || (r - 1) * PageSize < n
  {
    if n == 0 then 1 else (n + PageSize - 1) / PageSize
  }

  /** `displayedRows`: `slice((page - 1) * 15, page * 15)`, which stops at the
      end of the list. */
  function PageRows<T>(list: seq<T>, page: nat): (r: seq<T>)
    requires page >= 1
    ensures |r| <= PageSize
    ensures r == list[Min((page - 1) * PageSize, |list|)..Min(page * PageSize, |list|)]
  {
    var start := Min((page - 1) * PageSize, |list|);
    list[start..Min(start + PageSize, |list|)]
  }

  /** The list cut into pieces of fifteen, the last one possibly shorter; an
      empty list is one empty piece. */
  function Chunks<T>(list: seq<T>): seq<seq<T>>
    decreases |list|
  {
    if |list| <= PageSize then [list] else [list[..PageSize]] + Chunks(list[PageSize..])
  }

  function Flatten<T>(pieces: seq<seq<T>>): seq<T> {
    if |pieces| == 0 then [] else pieces[0] + Flatten(pieces[1..])
  }

  lemma {:induction false} ChunksCount<T>(list: seq<T>)
    ensures |Chunks(list)| == TotalPages(|list|)
    decreases |list|
  {
    if |list| > PageSize {
      ChunksCount(list[PageSize..]);
      assert TotalPages(|list|) == TotalPages(|list| - PageSize) + 1;
    }
  }

  lemma {:induction false} ChunksFlatten<T>(list: seq<T>)
    ensures Flatten(Chunks(list)) == list
    decreases |list|
  {
    if |list| > PageSize {
      ChunksFlatten(list[PageSize..]);
      assert list[..PageSize] + list[PageSize..] == list;
    } else {
      assert Flatten(Chunks(list)) == list + [];
    }
  }

  lemma {:induction false} ChunkPage<T>(list: seq<T>, p: nat)
    requires 1 <= p <= TotalPages(|list|)
    ensures |Chunks(list)| == TotalPages(|list|)
    ensures PageRows(list, p) == Chunks(list)[p - 1]
    decreases |list|
  {
    ChunksCount(list);
    if |list| > PageSize && p > 1 {
      var rest := list[PageSize..];
      assert TotalPages(|list|) == TotalPages(|rest|) + 1;
      ChunkPage(rest, p - 1);
      assert PageRows(list, p) == PageRows(rest, p - 1);
    }
  }

  /** The pages partition the list: there are `TotalPages` of them, page `p`
      is the `p`-th piece of fifteen, the pieces laid end to end give the list
      back, and a page past the last is empty. */
  lemma PagesPartition<T>(list: seq<T>)
    ensures |Chunks(list)| == TotalPages(|list|)
    ensures Flatten(Chunks(list)) == list
    ensures forall p :: 1 <= p <= TotalPages(|list|) ==> PageRows(list, p) == Chunks(list)[p - 1]
    ensures forall p :: p > TotalPages(|list|) ==> PageRows(list, p) == []
  {
    ChunksCount(list);
    ChunksFlatten(list);
    forall p | 1 <= p <= TotalPages(|list|)
      ensures PageRows(list, p) == Chunks(list)[p - 1]
    {
      ChunkPage(list, p);
    }
  }

  // ---------------------------------------------------------------- labels and delete

  /** The entity caption of a row: its group's label, else the sanitised
      entity name. */
  function EntityLabel(entity: string): string {
    var labels := MovementGroups.LabelsOf(MovementGroups.Groups);
    if entity in labels then labels[entity] else Text.Sanitize(entity)
  }

  /** A group's value and each of its aliases show the group's label; any
      other name shows as itself once sanitised. */
  lemma EntityLabelCases(entity: string)
    ensures forall i :: 0 <= i < |MovementGroups.Groups| && entity in MovementGroups.Names(MovementGroups.Groups[i]) ==>
      EntityLabel(entity) == MovementGroups.Groups[i].caption
    ensures (forall i :: 0 <= i < |MovementGroups.Groups| ==> entity !in MovementGroups.Names(MovementGroups.Groups[i])) ==>
      EntityLabel(entity) == Text.Sanitize(entity)
  {
    var groups := MovementGroups.Groups;
    var labels := MovementGroups.LabelsOf(groups);
    MovementGroups.LabelsOfKeys(groups, entity);
    forall i | 0 <= i < |groups| && entity in MovementGroups.Names(groups[i])
      ensures EntityLabel(entity) == groups[i].caption
    {
      GroupLabel(i, entity);
    }
  }

  /** One group's names all carry its label. */
  lemma GroupLabel(i: nat, entity: string)
    requires i < |MovementGroups.Groups| && entity in MovementGroups.Names(MovementGroups.Groups[i])
    ensures entity in MovementGroups.LabelsOf(MovementGroups.Groups)
    ensures MovementGroups.LabelsOf(MovementGroups.Groups)[entity] == MovementGroups.Groups[i].caption
  {
    var groups := MovementGroups.Groups;
    assert MovementGroups.Names(groups[0]) == ["materials", "material"];
    assert MovementGroups.Names(groups[1]) == ["tools", "tool"];
    assert MovementGroups.Names(groups[2]) == ["timesheets", "hours", "timesheet", "horas"];
    assert MovementGroups.Names(groups[3]) == ["workorders", "workorder", "work-orders", "ot"];
    MovementGroups.LabelsOfAt(groups, i, entity);
  }

  /** `canDelete`: an administrator, a row with an id, and not one of the
      movements made up from timesheets. `handleDelete` returns early on
      exactly the same conditions. */
  predicate CanDelete(isAdmin: bool, id: string) {
    isAdmin && id != "" && !IsPrefix(Movements.FallbackPrefix, id)
  }

  /** A movement made up from a timesheet can never be deleted, not even by
      an administrator; an administrator can delete any other row with an
      id. */
  lemma CanDeleteCases(isAdmin: bool, doc: Movements.TimesheetSource, id: string)
    ensures !CanDelete(isAdmin, Movements.MovementOf(doc).id)
    ensures !isAdmin ==> !CanDelete(isAdmin, id)
    ensures isAdmin && id != "" && !IsPrefix(Movements.FallbackPrefix, id) ==> CanDelete(isAdmin, id)
  {
    Movements.MovementOfProperties(doc);
  }

  // ---------------------------------------------------------------- the page

  /** The page state: the loaded rows, the chosen filter and the page
      number. */
  class MovementsView {
    var rows: seq<Row>
    var filter: string
    var page: nat

    /** The page number is always one of the pages. */
    ghost predicate Valid()
      reads this
    {
      1 <= page <= TotalPages(|Visible(rows, filter)|)
    }

    /** `displayedRows`. */
    function Displayed(): (r: seq<Row>)
      reads this
      requires Valid()
      ensures |r| <= PageSize
    {
      PageRows(Visible(rows, filter), page)
    }

    /** The first render: no rows, "all", page 1. */
    constructor()
      ensures Valid() && rows == [] && filter == "all" && page == 1
    {
      rows := [];
      filter := "all";
      page := 1;
    }

    /** Keeps the page within the page count after the list changed. */
    method ClampPage()
      modifies this
      requires page >= 1
      ensures Valid()
      ensures rows == old(rows) && filter == old(filter)
      ensures page == Min(old(page), TotalPages(|Visible(rows, filter)|))
    {
      page := Min(page, TotalPages(|Visible(rows, filter)|));
    }

    /** The rows arrive from the server. */
    method Load(data: seq<Row>)
      modifies this
      requires Valid()
      ensures Valid()
      ensures rows == data && filter == old(filter)
      ensures page == Min(old(page), TotalPages(|Visible(data, filter)|))
    {
      rows := data;
      ClampPage();
    }

    /** A filter button: a different filter changes the list and the page
      goes back to 1; the filter already chosen leaves the page as it was. */
    method SelectFilter(f: string)
      modifies this
      requires Valid()
      ensures Valid()
      ensures rows == old(rows) && filter == f
      ensures page == if f == old(filter) then old(page) else 1
    {
      if f != filter {
        filter := f;
        page := 1;
      }
    }

    /** The "previous" button. */
    method Previous()
      modifies this
      requires Valid()
      ensures Valid()
      ensures rows == old(rows) && filter == old(filter) && page == Max(1, old(page) - 1)
    {
      page := Max(1, page - 1);
    }

    /** The "next" button. */
    method Next()
      modifies this
      requires Valid()
      ensures Valid()
      ensures rows == old(rows) && filter == old(filter)
      ensures page == Min(TotalPages(|Visible(rows, filter)|), old(page) + 1)
    {
      page := Min(TotalPages(|Visible(rows, filter)|), page + 1);
    }

    /** `handleDelete(row)`: `confirmed` is the answer to the confirmation
      and `succeeded` whether the server's delete went through. Only then
      are the rows with that id dropped from the list. */
    method Delete(isAdmin: bool, id: string, confirmed: bool, succeeded: bool)
      modifies this
      requires Valid()
      ensures Valid()
      ensures filter == old(filter)
      ensures CanDelete(isAdmin, id) && confirmed && succeeded ==>
        rows == Lists.Filter(old(rows), (r: Row) => r.id != id)
      ensures CanDelete(isAdmin, id) && confirmed && succeeded ==>
        page == Min(old(page), TotalPages(|Visible(rows, filter)|))
      ensures !(CanDelete(isAdmin, id) && confirmed && succeeded) ==> rows == old(rows) && page == old(page)
    {
      if !CanDelete(isAdmin, id) || !confirmed || !succeeded {
        return;
      }
      rows := Lists.Filter(rows, (r: Row) => r.id != id);
      ClampPage();
    }
  }
}
