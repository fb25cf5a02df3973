/** How the `GET /reminders` handler turns a validated query into a service
    call (backend/dist/controllers/reminder.controller.js): the filter is the
    caller's id plus the query's `status`, the options are the query's
    `limit` and `page`. */
module ReminderRoute {
  import opened Common
  import ReminderRecord
  import opened ReminderService
  import opened ReminderValidation

  /** `{ userId, ...pick(query, ['status']) }`. */
  function FilterOf(userId: int, query: Fields): (f: Filter)
    ensures f.userId == userId
    ensures f.status.Some? <==> "status" in query && query["status"].Str?
    ensures f.status.Some? ==> query["status"] == Str(f.status.value)
  {
    Filter(userId, if "status" in query && query["status"].Str? then Some(query["status"].s) else None)
  }

  /** `pick(query, ['limit', 'page'])`: never a `sortBy`, so the default order applies. */
  function OptionsOf(query: Fields): (o: QueryOptions)
    ensures o.sortBy.None? && o.sortType.None?
    ensures o.limit.Some? <==> "limit" in query && query["limit"].Int?
    ensures o.limit.Some? ==> query["limit"] == Int(o.limit.value)
    ensures o.page.Some? <==> "page" in query && query["page"].Int?
    ensures o.page.Some? ==> query["page"] == Int(o.page.value)
  {
    QueryOptions(
      if "limit" in query && query["limit"].Int? then Some(query["limit"].n) else None,
      if "page" in query && query["page"].Int? then Some(query["page"].n) else None,
      None, None)
  }

  /** As written, a query that passes validation still fails in the service
      exactly when its `page` and `limit` give a negative `skip`. */
  lemma ValidQueryFailsOnlyOnPaging(t: ReminderTable, userId: int, query: Fields)
    requires ValidGetRemindersQuery(query)
    ensures var res := t.QueryReminders(FilterOf(userId, query), OptionsOf(query));
      res.Err? <==> Skip(OptionsOf(query)) < 0
  {
  }

  /** `?limit=-3` passes validation and, on the first page, is served: the
      last three of the caller's rows under the default order, that is the
      three oldest, still newest first. */
  lemma NegativeLimitReadsFromEnd(t: ReminderTable, userId: int)
    ensures ValidGetRemindersQuery(map["limit" := Int(-3)])
    ensures var ordered := ReminderRecord.SortBy(MatchingRecords(t.rows, Filter(userId, None)),
                                                 ReminderRecord.Order(ReminderRecord.CreatedAt, ReminderRecord.Desc));
      t.QueryReminders(FilterOf(userId, map["limit" := Int(-3)]), OptionsOf(map["limit" := Int(-3)]))
      == Ok(ordered[|ordered| - (if |ordered| < 3 then |ordered| else 3)..])
  {
    var q := map["limit" := Int(-3)];
    assert q.Keys == {"limit"};
    var f, o := FilterOf(userId, q), OptionsOf(q);
    assert f == Filter(userId, None);
    assert Skip(o) == 0 && Take(o) == -3;
    var order := ReminderRecord.Order(ReminderRecord.CreatedAt, ReminderRecord.Desc);
    assert OrderOf(o) == Ok(order);
    var ordered := ReminderRecord.SortBy(MatchingRecords(t.rows, f), order);
    assert t.QueryReminders(f, o) == Ok(Window(ordered, 0, -3));
    LastRows(ordered, 3);
  }

  /** Taking `-n` rows without skipping any gives the last `n` rows, or all
      of them when there are fewer. */
  lemma LastRows(s: seq<ReminderRecord.Record>, n: int)
    requires n >= 0
    ensures Window(s, 0, -n) == s[|s| - (if |s| < n then |s| else n)..]
  {
    var w := Window(s, 0, -n);
    assert IsWindowOf(w, s, 0, -n);
    var m := if |s| < n then |s| else n;
    var last := s[|s| - m..];
    assert |w| == m == |last|;
    forall k | 0 <= k < m ensures w[k] == last[k] {
      assert w[k] == s[|s| - 0 - |w| + k] == last[k];
    }
  }

  /** As written, `?page=0` passes validation and then makes the service
      fail: `skip` is `(0 - 1) * 10`. */
  lemma PageZeroPassesValidation(t: ReminderTable, userId: int)
    ensures ValidGetRemindersQuery(map["page" := Int(0)])
    ensures t.QueryReminders(FilterOf(userId, map["page" := Int(0)]), OptionsOf(map["page" := Int(0)]))
         == Err(InvalidPagination)
  {
    var q := map["page" := Int(0)];
    assert q.Keys == {"page"};
    assert Skip(OptionsOf(q)) == -10;
  }

  /** The query schema with `page` and `limit` at least 1. */
  predicate ValidPagedQuery(query: Fields) {
    && ValidGetRemindersQuery(query)
    && ("limit" in query ==> query["limit"].Int? && query["limit"].n >= 1)
    && ("page" in query ==> query["page"].Int? && query["page"].n >= 1)
  }

  /** With `page` and `limit` at least 1 every accepted query is served: at
      most `limit` of the caller's own rows, newest first. */
  lemma PagedQueryIsServed(t: ReminderTable, userId: int, query: Fields)
    requires ValidPagedQuery(query)
    ensures var res := t.QueryReminders(FilterOf(userId, query), OptionsOf(query));
      && res.Ok?
      && |res.value| <= Take(OptionsOf(query))
      && (forall k :: 0 <= k < |res.value| ==> res.value[k].userId == userId)
      && (forall i, j :: 0 <= i < j < |res.value| ==> res.value[i].createdAt >= res.value[j].createdAt)
  {
    var o := OptionsOf(query);
    var page, limit := o.page.GetOr(DefaultPage), Take(o);
    assert page >= 1 && limit >= 1;
    NonNegativeProduct(page - 1, limit);
    assert Skip(o) >= 0;
    var res := t.QueryReminders(FilterOf(userId, query), o);
    assert OrderOf(o) == Ok(ReminderRecord.Order(ReminderRecord.CreatedAt, ReminderRecord.Desc));
    assert res.Ok? && |res.value| <= limit;
    ReminderRecord.NewestFirst(res.value);
  }

  lemma NonNegativeProduct(a: int, b: int)
    requires a >= 0 && b >= 0
    ensures a * b >= 0
  {
  }
}
