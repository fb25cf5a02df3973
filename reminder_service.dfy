/** The backend reminder service (backend/src/services/reminder.service.ts)
    over an in-memory table instead of the database. Every lookup matches the
    id and the owning user together. The database's id generator is a
    counter, its clock is the `now` parameter, and the column default for
    `status` is fixed when the table is made. */
module ReminderService {
  import opened Common
  import opened ReminderRecord

  /** The failures a caller of the service can see. */
  datatype ServiceError =
    | NotFound                       // no reminder with this id owned by this user
    | InvalidPagination              // the computed `skip` is negative
    | UnknownSortField(name: string) // `sortBy` names no column

  // ---------------------------------------------------------------------
  // Ownership lookup
  // ---------------------------------------------------------------------

  /** Row `i` has this id and belongs to this user. */
  predicate OwnedAt(rows: seq<Record>, i: int, id: nat, userId: int) {
    0 <= i < |rows| && rows[i].id == id && rows[i].userId == userId
  }

  /** `findFirst({ where: { id, userId } })` over a list of rows. */
  function FindOwned(rows: seq<Record>, id: nat, userId: int): (r: Option<Record>)
    ensures r.Some? ==> r.value in rows && r.value.id == id && r.value.userId == userId
    ensures r.None? <==> forall x :: x in rows ==> !(x.id == id && x.userId == userId)
  {
    if rows == [] then None
    else if rows[0].id == id && rows[0].userId == userId then Some(rows[0])
    else
      assert rows == [rows[0]] + rows[1..];
      FindOwned(rows[1..], id, userId)
  }

  // ---------------------------------------------------------------------
  // Query filter and options
  // ---------------------------------------------------------------------

  /** The `where` filter the callers build: the caller's id and maybe a status. */
  datatype Filter = Filter(userId: int, status: Option<string>)

  predicate Matches(r: Record, f: Filter) {
    r.userId == f.userId && (f.status.Some? ==> r.status == f.status.value)
  }

  /** The rows the filter selects, in table order. */
  function MatchingRecords(s: seq<Record>, f: Filter): (r: seq<Record>)
    ensures |r| <= |s|
    ensures forall k :: 0 <= k < |r| ==> r[k] in s && Matches(r[k], f)
  {
    if s == [] then []
    else (if Matches(s[0], f) then [s[0]] else []) + MatchingRecords(s[1..], f)
  }

  /** A row is selected exactly when it is in the table and matches. */
  lemma {:induction false} MatchingMembers(s: seq<Record>, f: Filter, x: Record)
    ensures x in MatchingRecords(s, f) <==> x in s && Matches(x, f)
  {
    if s != [] {
      MatchingMembers(s[1..], f, x);
      assert s == [s[0]] + s[1..];
    }
  }

  datatype QueryOptions = QueryOptions(
    limit: Option<int>,
    page: Option<int>,
    sortBy: Option<string>,
    sortType: Option<Direction>)

  const DefaultPage := 1
  const DefaultLimit := 10

  /** `take`: `options.limit ?? 10`. */
  function Take(options: QueryOptions): int {
    options.limit.GetOr(DefaultLimit)
  }

  /** `skip`: `(page - 1) * limit` with `page = options.page ?? 1`. */
  function Skip(options: QueryOptions): int {
    (options.page.GetOr(DefaultPage) - 1) * Take(options)
  }

  /** `sortBy ? { [sortBy]: sortType ?? 'desc' } : { createdAt: 'desc' }`; an
      empty `sortBy` is falsy and so falls back to the default. */
  function OrderOf(options: QueryOptions): (r: Result<Order, ServiceError>)
    ensures options.sortBy.None? || options.sortBy == Some("") ==> r == Ok(Order(CreatedAt, Desc))
    ensures options.sortBy.Some? && options.sortBy.value != "" ==>
      if FieldNamed(options.sortBy.value).Some?
      then r == Ok(Order(FieldNamed(options.sortBy.value).value, options.sortType.GetOr(Desc)))
      else r == Err(UnknownSortField(options.sortBy.value))
  {
    match options.sortBy
    case None => Ok(Order(CreatedAt, Desc))
    case Some(name) =>
      if name == "" then Ok(Order(CreatedAt, Desc))
      else match FieldNamed(name)
        case None => Err(UnknownSortField(name))
        case Some(f) => Ok(Order(f, options.sortType.GetOr(Desc)))
  }

  function Abs(x: int): nat {
    if x < 0 then -x else x
  }

  /** How many rows a window of `take` rows after skipping `skip` finds among
      `n`: as many as asked for, as far as there are any. */
  function PageLength(n: int, skip: int, take: int): (len: int)
    ensures 0 <= len <= Abs(take)
    ensures len == 0 || (skip < n && len <= n - skip)
  {
    if skip >= n then 0 else if Abs(take) < n - skip then Abs(take) else n - skip
  }

  /** `page` is what the database returns for `skip` and `take` over the
      ordered rows `s`. A non-negative `take` reads forward: up to `take` rows
      starting at row `skip`. A negative `take` reads backward from the end:
      up to `-take` rows ending just before the last `skip` rows, still in
      the order of `s`. */
  predicate IsWindowOf(page: seq<Record>, s: seq<Record>, skip: int, take: int) {
    && skip >= 0
    && |page| == PageLength(|s|, skip, take)
    && (take >= 0 ==> forall k :: 0 <= k < |page| ==> page[k] == s[skip + k])
    && (take < 0 ==> forall k :: 0 <= k < |page| ==> page[k] == s[|s| - skip - |page| + k])
  }

  /** Where a window starts within the rows it is cut from. */
  function WindowStart(n: int, skip: int, take: int): int {
    if take >= 0 then skip else n - skip - PageLength(n, skip, take)
  }

  /** `skip` and `take`, as a slice of the ordered rows. */
  function Window(s: seq<Record>, skip: int, take: int): (r: seq<Record>)
    requires skip >= 0
    ensures IsWindowOf(r, s, skip, take)
  {
    var len, start := PageLength(|s|, skip, take), WindowStart(|s|, skip, take);
    if len == 0 then [] else s[start..start + len]
  }

  /** A window holds consecutive rows of its input, so it keeps the input's
      order and holds only the input's rows. */
  lemma WindowOfSorted(s: seq<Record>, skip: int, take: int, order: Order)
    requires skip >= 0 && SortedBy(s, order)
    ensures var page := Window(s, skip, take);
      && (forall k :: 0 <= k < |page| ==> page[k] in multiset(s))
      && SortedBy(page, order)
  {
    var len, start := PageLength(|s|, skip, take), WindowStart(|s|, skip, take);
    if len > 0 {
      assert 0 <= start && start + len <= |s|;
      assert Window(s, skip, take) == s[start..start + len];
      SliceSorted(s, start, start + len, order);
    }
  }

  /** A window of the ordered matching rows holds at most `|take|`
      consecutive ordered rows, only matching table rows, in order. */
  lemma OrderedPage(rows: seq<Record>, filter: Filter, order: Order, skip: int, take: int)
    requires skip >= 0
    ensures var ordered := SortBy(MatchingRecords(rows, filter), order);
      var page := Window(ordered, skip, take);
      && |page| <= Abs(take)
      && IsWindowOf(page, ordered, skip, take)
      && (forall k :: 0 <= k < |page| ==> page[k] in rows && Matches(page[k], filter))
      && SortedBy(page, order)
  {
    var matching := MatchingRecords(rows, filter);
    var ordered := SortBy(matching, order);
    SortBySorted(matching, order);
    WindowOfSorted(ordered, skip, take, order);
    var page := Window(ordered, skip, take);
    forall k | 0 <= k < |page| ensures page[k] in rows && Matches(page[k], filter) {
      assert page[k] in multiset(matching);
      MatchingMembers(rows, filter, page[k]);
    }
  }

  /** With no options the service serves the first ten rows, newest first,
      and a `sortType` without `sortBy` is ignored. */
  lemma DefaultOptions(sortType: Option<Direction>)
    ensures Skip(QueryOptions(None, None, None, sortType)) == 0
    ensures Take(QueryOptions(None, None, None, sortType)) == 10
    ensures OrderOf(QueryOptions(None, None, None, sortType)) == Ok(Order(CreatedAt, Desc))
  {
  }

  /** Pagination covers the ordered rows page by page: with a positive limit
      row `j` is on page `j / limit + 1`, at position `j % limit`. */
  lemma RowOnItsPage(s: seq<Record>, limit: int, j: int)
    requires limit > 0 && 0 <= j < |s|
    ensures var page := j / limit + 1;
      var w := Window(s, (page - 1) * limit, limit);
      j % limit < |w| && w[j % limit] == s[j]
  {
    var page := j / limit + 1;
    assert (page - 1) * limit + j % limit == j;
  }

  // ---------------------------------------------------------------------
  // The table
  // ---------------------------------------------------------------------

  /** `Prisma.ReminderUpdateInput` as the routes fill it: any of three columns. */
  datatype UpdateBody = UpdateBody(text: Option<string>, dateTime: Option<int>, status: Option<string>)

  /** The row after `update({ data: updateBody })`: the given columns
      overwritten, `updatedAt` refreshed, everything else kept. */
  function Apply(r: Record, body: UpdateBody, now: int): (u: Record)
    ensures u.id == r.id && u.userId == r.userId && u.createdAt == r.createdAt && u.updatedAt == now
    ensures u.text == body.text.GetOr(r.text)
    ensures u.dateTime == body.dateTime.GetOr(r.dateTime)
    ensures u.status == body.status.GetOr(r.status)
  {
    r.(text := body.text.GetOr(r.text),
       dateTime := body.dateTime.GetOr(r.dateTime),
       status := body.status.GetOr(r.status),
       updatedAt := now)
  }

  class ReminderTable {
    /** The column default for `status` on a new row. */
    const defaultStatus: string
    /** The rows, in insertion order. */
    var rows: seq<Record>
    /** The id the next created row receives. */
    var nextId: nat

    /** Ids are unique and all below `nextId`. */
    ghost predicate Valid()
      reads this
    {
      && (forall i, j :: 0 <= i < j < |rows| ==> rows[i].id != rows[j].id)
      && (forall i :: 0 <= i < |rows| ==> rows[i].id < nextId)
    }

    constructor (defaultStatus: string)
      ensures Valid()
      ensures this.defaultStatus == defaultStatus && rows == []
    {
      this.defaultStatus := defaultStatus;
      rows := [];
      nextId := 0;
    }

    /** `createReminder`: one new row, owned by `userId`, with a fresh id and
        both timestamps `now`; existing rows are untouched. */
    method CreateReminder(userId: int, text: string, dateTime: int, now: int) returns (r: Record)
      requires Valid()
      modifies this
      ensures Valid()
      ensures r == Record(old(nextId), text, dateTime, defaultStatus, now, now, userId)
      ensures rows == old(rows) + [r]
      ensures forall k :: 0 <= k < |old(rows)| ==> old(rows)[k].id != r.id
    {
      r := Record(nextId, text, dateTime, defaultStatus, now, now, userId);
      rows := rows + [r];
      nextId := nextId + 1;
    }

    /** `queryReminders`: the rows matching the filter, in the requested
        order, a window of `take` of them after skipping `skip`. */
    function QueryReminders(filter: Filter, options: QueryOptions): (res: Result<seq<Record>, ServiceError>)
      reads this
      ensures Skip(options) < 0 ==> res == Err(InvalidPagination)
      ensures res.Ok? <==> Skip(options) >= 0 && OrderOf(options).Ok?
      ensures res.Ok? ==>
        var ordered := SortBy(MatchingRecords(rows, filter), OrderOf(options).value);
        && |res.value| <= Abs(Take(options))
        && IsWindowOf(res.value, ordered, Skip(options), Take(options))
      ensures res.Ok? ==> forall k :: 0 <= k < |res.value| ==> res.value[k] in rows && Matches(res.value[k], filter)
      ensures res.Ok? ==> SortedBy(res.value, OrderOf(options).value)
    {
      var skip, take := Skip(options), Take(options);
      if skip < 0 then Err(InvalidPagination)
      else match OrderOf(options)
        case Err(e) => Err(e)
        case Ok(order) =>
          OrderedPage(rows, filter, order, skip, take);
          Ok(Window(SortBy(MatchingRecords(rows, filter), order), skip, take))
    }

    /** `getReminderById`: a row with this id owned by this user, or nothing. */
    function GetReminderById(id: nat, userId: int): (r: Option<Record>)
      reads this
      ensures r.Some? ==> r.value in rows && r.value.id == id && r.value.userId == userId
      ensures r.None? <==> forall x :: x in rows ==> !(x.id == id && x.userId == userId)
    {
      FindOwned(rows, id, userId)
    }

    /** The position of the row with this id (`where: { id }`), or -1. */
    method IndexOfId(id: nat) returns (i: int)
      ensures -1 <= i < |rows|
      ensures i == -1 <==> forall k :: 0 <= k < |rows| ==> rows[k].id != id
      ensures i >= 0 ==> rows[i].id == id
    {
      i := 0;
      while i < |rows|
        invariant 0 <= i <= |rows|
        invariant forall k :: 0 <= k < i ==> rows[k].id != id
      {
        if rows[i].id == id {
          return;
        }
        i := i + 1;
      }
      i := -1;
    }

    /** `updateReminderById`: NotFound, with the table unchanged, unless the
        user owns a row with this id; otherwise exactly that row is replaced
        by its updated version. */
    method UpdateReminderById(id: nat, userId: int, body: UpdateBody, now: int)
      returns (res: Result<Record, ServiceError>)
      requires Valid()
      modifies this
      ensures Valid() && nextId == old(nextId)
      ensures res.Err? <==> old(GetReminderById(id, userId)).None?
      ensures res.Err? ==> res.error == NotFound && rows == old(rows)
      ensures res.Ok? ==> exists i :: (OwnedAt(old(rows), i, id, userId)
        && res.value == Apply(old(rows)[i], body, now)
        && rows == old(rows)[i := res.value])
    {
      var reminder := GetReminderById(id, userId);
      if reminder.None? {
        return Err(NotFound);
      }
      var i := IndexOfId(reminder.value.id);
      var updated := Apply(rows[i], body, now);
      assert OwnedAt(rows, i, id, userId) by {
        var j :| 0 <= j < |rows| && rows[j] == reminder.value;
        assert i == j;
      }
      rows := rows[i := updated];
      res := Ok(updated);
    }

    /** `deleteReminderById`: NotFound, with the table unchanged, unless the
        user owns a row with this id; otherwise exactly that row is removed
        and returned as it was, and no row with this id remains. */
    method DeleteReminderById(id: nat, userId: int) returns (res: Result<Record, ServiceError>)
      requires Valid()
      modifies this
      ensures Valid() && nextId == old(nextId)
      ensures res.Err? <==> old(GetReminderById(id, userId)).None?
      ensures res.Err? ==> res.error == NotFound && rows == old(rows)
      ensures res.Ok? ==> exists i :: (OwnedAt(old(rows), i, id, userId)
        && res.value == old(rows)[i]
        && rows == old(rows)[..i] + old(rows)[i + 1..])
      ensures res.Ok? ==> forall k :: 0 <= k < |rows| ==> rows[k].id != id
    {
      var reminder := GetReminderById(id, userId);
      if reminder.None? {
        return Err(NotFound);
      }
      var i := IndexOfId(reminder.value.id);
      assert OwnedAt(rows, i, id, userId) by {
        var j :| 0 <= j < |rows| && rows[j] == reminder.value;
        assert i == j;
      }
      RemoveRowKeepsIdsApart(rows, i, nextId);
      rows := rows[..i] + rows[i + 1..];
      res := Ok(reminder.value);
    }
  }

  /** Removing one row from rows with distinct ids below `bound` leaves rows
      with distinct ids below `bound`, none of them the removed row's id. */
  lemma RemoveRowKeepsIdsApart(rows: seq<Record>, i: int, bound: nat)
    requires 0 <= i < |rows|
    requires forall a, b :: 0 <= a < b < |rows| ==> rows[a].id != rows[b].id
    requires forall a :: 0 <= a < |rows| ==> rows[a].id < bound
    ensures var rest := rows[..i] + rows[i + 1..];
      && (forall a, b :: 0 <= a < b < |rest| ==> rest[a].id != rest[b].id)
      && (forall a :: 0 <= a < |rest| ==> rest[a].id < bound)
      && (forall a :: 0 <= a < |rest| ==> rest[a].id != rows[i].id)
  {
    var rest := rows[..i] + rows[i + 1..];
    forall a | 0 <= a < |rest| ensures rest[a] == rows[if a < i then a else a + 1] {
    }
  }

  /** A valid table holds at most one row per id, so a lookup that succeeds
      names the one row with that id. */
  lemma LookupIsTheRowWithThatId(t: ReminderTable, id: nat, userId: int, i: int)
    requires t.Valid() && 0 <= i < |t.rows| && t.rows[i].id == id
    ensures t.GetReminderById(id, userId).Some? <==> t.rows[i].userId == userId
    ensures t.GetReminderById(id, userId).Some? ==> t.GetReminderById(id, userId).value == t.rows[i]
  {
    var got := t.GetReminderById(id, userId);
    if got.Some? {
      var j :| 0 <= j < |t.rows| && t.rows[j] == got.value;
      assert i == j;
    } else {
      assert !OwnedAt(t.rows, i, id, userId);
    }
  }

  /** Ownership isolation: another user asking for an existing row's id gets
      nothing. */
  lemma OtherUserSeesNothing(t: ReminderTable, r: Record, other: int)
    requires t.Valid() && r in t.rows && other != r.userId
    ensures t.GetReminderById(r.id, other) == None
  {
    var i :| 0 <= i < |t.rows| && t.rows[i] == r;
    LookupIsTheRowWithThatId(t, r.id, other, i);
  }

  /** With default options a user gets at most ten of their own rows, newest
      first. */
  lemma DefaultQueryNewestFirst(t: ReminderTable, userId: int)
    ensures var res := t.QueryReminders(Filter(userId, None), QueryOptions(None, None, None, None));
      && res.Ok?
      && |res.value| <= 10
      && (forall k :: 0 <= k < |res.value| ==> res.value[k].userId == userId)
      && (forall i, j :: 0 <= i < j < |res.value| ==> res.value[i].createdAt >= res.value[j].createdAt)
  {
    var res := t.QueryReminders(Filter(userId, None), QueryOptions(None, None, None, None));
    NewestFirst(res.value);
  }
}
