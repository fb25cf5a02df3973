/** Derived state the client computes over a batch of reminders
    (frontend/src/utils/reminderUtils.ts): the overdue test, overdue
    relabelling, the upcoming filter and the ascending, stable sort by due
    time. "Now" is an explicit parameter instead of `new Date()`. */
module ReminderUtils {
  import opened ReminderTypes

  // ---------------------------------------------------------------------
  // isOverdue and updateReminderStatuses
  // ---------------------------------------------------------------------

  /** A reminder is overdue when its due time has passed and it is not completed. */
  predicate IsOverdue(r: Reminder, now: int) {
    r.dateTime < now && r.status != Completed
  }

  /** A completed reminder is never overdue, whatever the clock says. */
  lemma CompletedNeverOverdue(r: Reminder, now: int)
    requires r.status == Completed
    ensures !IsOverdue(r, now)
  {
  }

  /** One second either side of `now`: a pending reminder due a second ago
      is overdue, the same reminder completed is not, and a pending reminder
      due in a second is not. */
  lemma OverdueOneSecondEitherSide(text: string, now: int)
    ensures IsOverdue(Reminder("a", text, now - 1000, now, Upcoming), now)
    ensures !IsOverdue(Reminder("a", text, now - 1000, now, Completed), now)
    ensures !IsOverdue(Reminder("a", text, now + 1000, now, Upcoming), now)
  {
  }

  /** The object spread `{...reminder, status: ...}` for one reminder. */
  function Relabel(r: Reminder, now: int): Reminder {
    r.(status := if IsOverdue(r, now) then Overdue else r.status)
  }

  /** `reminders.map(...)`: a new list, element by element relabelled. */
  function UpdateReminderStatuses(s: seq<Reminder>, now: int): (r: seq<Reminder>)
    ensures |r| == |s|
  {
    if s == [] then [] else [Relabel(s[0], now)] + UpdateReminderStatuses(s[1..], now)
  }

  /** Element `i` of the relabelled list keeps every field of element `i` of
      the input except `status`, which is `Overdue` exactly when the input
      element is overdue and is the input's status otherwise. */
  lemma {:induction false} UpdateReminderStatusesAt(s: seq<Reminder>, now: int, i: int)
    requires 0 <= i < |s|
    ensures |UpdateReminderStatuses(s, now)| == |s|
    ensures UpdateReminderStatuses(s, now)[i].(status := s[i].status) == s[i]
    ensures IsOverdue(s[i], now) ==> UpdateReminderStatuses(s, now)[i].status == Overdue
    ensures !IsOverdue(s[i], now) ==> UpdateReminderStatuses(s, now)[i] == s[i]
  {
    if i > 0 {
      UpdateReminderStatusesAt(s[1..], now, i - 1);
    }
  }

  /** For a fixed clock reading, relabelling twice is relabelling once. */
  lemma {:induction false} UpdateReminderStatusesIdempotent(s: seq<Reminder>, now: int)
    ensures UpdateReminderStatuses(UpdateReminderStatuses(s, now), now) == UpdateReminderStatuses(s, now)
  {
    if s != [] {
      var t := UpdateReminderStatuses(s, now);
      assert t[1..] == UpdateReminderStatuses(s[1..], now);
      UpdateReminderStatusesIdempotent(s[1..], now);
    }
  }

  // ---------------------------------------------------------------------
  // filterUpcomingReminders
  // ---------------------------------------------------------------------

  /** `reminders.filter(r => r.status === 'upcoming')`. */
  function FilterUpcomingReminders(s: seq<Reminder>): (r: seq<Reminder>)
    ensures |r| <= |s|
    ensures forall k :: 0 <= k < |r| ==> r[k].status == Upcoming
  {
    if s == [] then []
    else (if s[0].status == Upcoming then [s[0]] else []) + FilterUpcomingReminders(s[1..])
  }

  /** A reminder is kept exactly when it is in the input and upcoming. */
  lemma {:induction false} FilterUpcomingMembers(s: seq<Reminder>, x: Reminder)
    ensures x in FilterUpcomingReminders(s) <==> x in s && x.status == Upcoming
  {
    if s != [] {
      FilterUpcomingMembers(s[1..], x);
      assert s == [s[0]] + s[1..];
    }
  }

  /** Filtering a concatenation filters each part and keeps their order, so
      the kept reminders stay in their input order. */
  lemma {:induction false} FilterUpcomingAppend(a: seq<Reminder>, b: seq<Reminder>)
    ensures FilterUpcomingReminders(a + b) == FilterUpcomingReminders(a) + FilterUpcomingReminders(b)
  {
    if a == [] {
      assert a + b == b;
    } else {
      assert (a + b)[0] == a[0];
      assert (a + b)[1..] == a[1..] + b;
      FilterUpcomingAppend(a[1..], b);
      var head := if a[0].status == Upcoming then [a[0]] else [];
      assert FilterUpcomingReminders(a + b) == head + FilterUpcomingReminders(a[1..] + b);
      assert FilterUpcomingReminders(a) == head + FilterUpcomingReminders(a[1..]);
    }
  }

  /** Each upcoming reminder is kept as many times as it occurs; no other is kept. */
  lemma {:induction false} FilterUpcomingCount(s: seq<Reminder>, x: Reminder)
    ensures multiset(FilterUpcomingReminders(s))[x] == if x.status == Upcoming then multiset(s)[x] else 0
  {
    if s != [] {
      FilterUpcomingCount(s[1..], x);
      assert s == [s[0]] + s[1..];
      assert multiset(s) == multiset{s[0]} + multiset(s[1..]);
      var head := if s[0].status == Upcoming then [s[0]] else [];
      assert multiset(FilterUpcomingReminders(s)) == multiset(head) + multiset(FilterUpcomingReminders(s[1..]));
    }
  }

  /** Filtering an already filtered list changes nothing. */
  lemma {:induction false} FilterUpcomingIdempotent(s: seq<Reminder>)
    ensures FilterUpcomingReminders(FilterUpcomingReminders(s)) == FilterUpcomingReminders(s)
  {
    if s != [] {
      var rest := FilterUpcomingReminders(s[1..]);
      FilterUpcomingIdempotent(s[1..]);
      if s[0].status == Upcoming {
        assert ([s[0]] + rest)[1..] == rest;
      } else {
        assert FilterUpcomingReminders(s) == rest;
      }
    }
  }

  // ---------------------------------------------------------------------
  // sortRemindersByDate
  // ---------------------------------------------------------------------

  /** Due times never decrease along the list. */
  predicate SortedByDate(s: seq<Reminder>) {
    forall i, j :: 0 <= i < j < |s| ==> s[i].dateTime <= s[j].dateTime
  }

  /** The reminders of `s` due exactly at `d`, in their order in `s`. Two
      lists order equal due times alike when these agree for every `d`. */
  function WithDate(s: seq<Reminder>, d: int): seq<Reminder> {
    if s == [] then []
    else (if s[0].dateTime == d then [s[0]] else []) + WithDate(s[1..], d)
  }

  /** Puts `x` in front of the first reminder not due before it, so `x` stays
      ahead of the reminders due at the same time that came after it. */
  function InsertByDate(x: Reminder, s: seq<Reminder>): (r: seq<Reminder>)
    ensures |r| == |s| + 1
    ensures multiset(r) == multiset(s) + multiset{x}
  {
    if s == [] || x.dateTime <= s[0].dateTime then [x] + s
    else
      assert s == [s[0]] + s[1..];
      [s[0]] + InsertByDate(x, s[1..])
  }

  /** `[...reminders].sort((a, b) => a.dateTime - b.dateTime)`, a stable sort of a
      copy: the result is a permutation of the input. */
  function SortRemindersByDate(s: seq<Reminder>): (r: seq<Reminder>)
    ensures |r| == |s|
    ensures multiset(r) == multiset(s)
  {
    if s == [] then []
    else
      assert s == [s[0]] + s[1..];
      InsertByDate(s[0], SortRemindersByDate(s[1..]))
  }

  /** Every reminder of `s` is due at `d` or later. */
  predicate DueNoEarlierThan(s: seq<Reminder>, d: int) {
    forall k :: 0 <= k < |s| ==> d <= s[k].dateTime
  }

  lemma {:induction false} InsertByDateBound(x: Reminder, s: seq<Reminder>, d: int)
    requires d <= x.dateTime && DueNoEarlierThan(s, d)
    ensures DueNoEarlierThan(InsertByDate(x, s), d)
  {
    if s != [] && x.dateTime > s[0].dateTime {
      InsertByDateBound(x, s[1..], d);
    }
  }

  /** A reminder due no later than every reminder of a sorted list can head it. */
  lemma ConsSortedByDate(y: Reminder, s: seq<Reminder>)
    requires SortedByDate(s) && DueNoEarlierThan(s, y.dateTime)
    ensures SortedByDate([y] + s)
  {
    var r := [y] + s;
    forall i, j | 0 <= i < j < |r| ensures r[i].dateTime <= r[j].dateTime {
      assert r[j] == s[j - 1];
      if i > 0 {
        assert r[i] == s[i - 1];
      }
    }
  }

  lemma {:induction false} InsertByDateSorted(x: Reminder, s: seq<Reminder>)
    requires SortedByDate(s)
    ensures SortedByDate(InsertByDate(x, s))
  {
    if s == [] {
      assert InsertByDate(x, s) == [x];
    } else if x.dateTime <= s[0].dateTime {
      forall k | 0 <= k < |s| ensures x.dateTime <= s[k].dateTime {
        assert s[0].dateTime <= s[k].dateTime;
      }
      ConsSortedByDate(x, s);
      assert InsertByDate(x, s) == [x] + s;
    } else {
      var rest := InsertByDate(x, s[1..]);
      assert SortedByDate(s[1..]);
      InsertByDateSorted(x, s[1..]);
      InsertByDateBound(x, s[1..], s[0].dateTime);
      ConsSortedByDate(s[0], rest);
      assert InsertByDate(x, s) == [s[0]] + rest;
    }
  }

  /** The output is in ascending order of due time. */
  lemma {:induction false} SortRemindersByDateSorted(s: seq<Reminder>)
    ensures SortedByDate(SortRemindersByDate(s))
  {
    if s != [] {
      SortRemindersByDateSorted(s[1..]);
      InsertByDateSorted(s[0], SortRemindersByDate(s[1..]));
    }
  }

  lemma {:induction false} WithDateAppend(a: seq<Reminder>, b: seq<Reminder>, d: int)
    ensures WithDate(a + b, d) == WithDate(a, d) + WithDate(b, d)
  {
    if a == [] {
      assert a + b == b;
    } else {
      assert (a + b)[0] == a[0];
      assert (a + b)[1..] == a[1..] + b;
      WithDateAppend(a[1..], b, d);
      var head := if a[0].dateTime == d then [a[0]] else [];
      assert WithDate(a + b, d) == head + WithDate(a[1..] + b, d);
      assert WithDate(a, d) == head + WithDate(a[1..], d);
    }
  }

  lemma WithDateSingle(x: Reminder, d: int)
    ensures WithDate([x], d) == if x.dateTime == d then [x] else []
  {
    assert [x][1..] == [];
  }

  lemma SwapEmpty(h0: seq<Reminder>, hx: seq<Reminder>, w: seq<Reminder>)
    requires h0 == [] || hx == []
    ensures h0 + (hx + w) == hx + (h0 + w)
  {
    if h0 == [] {
      assert h0 + (hx + w) == hx + w == hx + (h0 + w);
    } else {
      assert h0 + (hx + w) == h0 + w == hx + (h0 + w);
    }
  }

  lemma {:induction false} InsertByDateWithDate(x: Reminder, s: seq<Reminder>, d: int)
    ensures WithDate(InsertByDate(x, s), d) == WithDate([x], d) + WithDate(s, d)
  {
    if s == [] || x.dateTime <= s[0].dateTime {
      WithDateAppend([x], s, d);
    } else {
      var t := s[1..];
      var rest := InsertByDate(x, t);
      calc {
        WithDate(InsertByDate(x, s), d);
      == { assert InsertByDate(x, s) == [s[0]] + rest; }
        WithDate([s[0]] + rest, d);
      == { WithDateAppend([s[0]], rest, d); InsertByDateWithDate(x, t, d); }
        WithDate([s[0]], d) + (WithDate([x], d) + WithDate(t, d));
      == { WithDateSingle(x, d);
           WithDateSingle(s[0], d);
           SwapEmpty(WithDate([s[0]], d), WithDate([x], d), WithDate(t, d)); }
        WithDate([x], d) + (WithDate([s[0]], d) + WithDate(t, d));
      == { WithDateAppend([s[0]], t, d); assert s == [s[0]] + t; }
        WithDate([x], d) + WithDate(s, d);
      }
    }
  }

  lemma {:induction false} SortRemindersByDateStableAt(s: seq<Reminder>, d: int)
    ensures WithDate(SortRemindersByDate(s), d) == WithDate(s, d)
  {
    if s != [] {
      calc {
        WithDate(SortRemindersByDate(s), d);
        WithDate(InsertByDate(s[0], SortRemindersByDate(s[1..])), d);
      == { InsertByDateWithDate(s[0], SortRemindersByDate(s[1..]), d); }
        WithDate([s[0]], d) + WithDate(SortRemindersByDate(s[1..]), d);
      == { SortRemindersByDateStableAt(s[1..], d); }
        WithDate([s[0]], d) + WithDate(s[1..], d);
      == { WithDateAppend([s[0]], s[1..], d); assert s == [s[0]] + s[1..]; }
        WithDate(s, d);
      }
    }
  }

  /** Stability: for every due time, the reminders due then appear in the
      output in the same relative order as in the input. */
  lemma SortRemindersByDateStable(s: seq<Reminder>)
    ensures forall d :: WithDate(SortRemindersByDate(s), d) == WithDate(s, d)
  {
    forall d ensures WithDate(SortRemindersByDate(s), d) == WithDate(s, d) {
      SortRemindersByDateStableAt(s, d);
    }
  }

  lemma {:induction false} WithDateMembers(s: seq<Reminder>, d: int, x: Reminder)
    ensures x in WithDate(s, d) <==> x in s && x.dateTime == d
  {
    if s != [] {
      WithDateMembers(s[1..], d, x);
      assert s == [s[0]] + s[1..];
    }
  }

  /** A nonempty list has a reminder due at its first reminder's time. */
  lemma WithDateHead(s: seq<Reminder>)
    ensures s != [] ==> WithDate(s, s[0].dateTime) != []
  {
  }

  /** Two sorted nonempty lists that agree on the due times of their first
      reminders start with the same reminder. */
  lemma SortedWithDatesSameHead(t: seq<Reminder>, u: seq<Reminder>)
    requires t != [] && u != []
    requires SortedByDate(t) && SortedByDate(u)
    requires WithDate(t, t[0].dateTime) == WithDate(u, t[0].dateTime)
    requires WithDate(t, u[0].dateTime) == WithDate(u, u[0].dateTime)
    ensures t[0] == u[0]
  {
    var m, n := t[0].dateTime, u[0].dateTime;
    assert WithDate(t, m)[0] == t[0];
    WithDateMembers(u, m, t[0]);
    var i :| 0 <= i < |u| && u[i] == t[0];
    assert n <= m by { if i > 0 { assert u[0].dateTime <= u[i].dateTime; } }
    assert WithDate(u, n)[0] == u[0];
    WithDateMembers(t, n, u[0]);
    var j :| 0 <= j < |t| && t[j] == u[0];
    assert m <= n by { if j > 0 { assert t[0].dateTime <= t[j].dateTime; } }
  }

  /** Dropping the same first reminder keeps two lists agreeing on every due time. */
  lemma WithDatesTails(t: seq<Reminder>, u: seq<Reminder>)
    requires t != [] && u != [] && t[0] == u[0]
    requires forall d :: WithDate(t, d) == WithDate(u, d)
    ensures forall d :: WithDate(t[1..], d) == WithDate(u[1..], d)
  {
    forall d ensures WithDate(t[1..], d) == WithDate(u[1..], d) {
      var head := if t[0].dateTime == d then [t[0]] else [];
      assert WithDate(t, d) == head + WithDate(t[1..], d);
      assert WithDate(u, d) == head + WithDate(u[1..], d);
      assert WithDate(t[1..], d) == (head + WithDate(t[1..], d))[|head|..];
      assert WithDate(u[1..], d) == (head + WithDate(u[1..], d))[|head|..];
    }
  }

  lemma SortedTail(t: seq<Reminder>)
    requires t != [] && SortedByDate(t)
    ensures SortedByDate(t[1..])
  {
  }

  /** Two sorted lists that agree on the order of the reminders at every due
      time are the same list. */
  lemma {:induction false} SortedWithDatesUnique(t: seq<Reminder>, u: seq<Reminder>)
    requires SortedByDate(t) && SortedByDate(u)
    requires forall d :: WithDate(t, d) == WithDate(u, d)
    ensures t == u
  {
    WithDateHead(t);
    WithDateHead(u);
    if t != [] && u != [] {
      SortedWithDatesSameHead(t, u);
      WithDatesTails(t, u);
      SortedTail(t);
      SortedTail(u);
      SortedWithDatesUnique(t[1..], u[1..]);
      assert t == [t[0]] + t[1..];
      assert u == [u[0]] + u[1..];
    }
  }

  /** The sort is THE stable ascending sort: any sorted list that orders the
      reminders of each due time as the input does is its output. */
  lemma SortRemindersByDateIsStableSort(s: seq<Reminder>, t: seq<Reminder>)
    requires SortedByDate(t)
    requires forall d :: WithDate(t, d) == WithDate(s, d)
    ensures t == SortRemindersByDate(s)
  {
    SortRemindersByDateSorted(s);
    SortRemindersByDateStable(s);
    SortedWithDatesUnique(t, SortRemindersByDate(s));
  }

  // ---------------------------------------------------------------------
  // The list view: relabel, then sort
  // ---------------------------------------------------------------------

  lemma {:induction false} InsertRelabelled(x: Reminder, s: seq<Reminder>, now: int)
    ensures UpdateReminderStatuses(InsertByDate(x, s), now)
         == InsertByDate(Relabel(x, now), UpdateReminderStatuses(s, now))
  {
    if s == [] || x.dateTime <= s[0].dateTime {
      assert ([x] + s)[1..] == s;
    } else {
      var rest := InsertByDate(x, s[1..]);
      assert ([s[0]] + rest)[1..] == rest;
      InsertRelabelled(x, s[1..], now);
    }
  }

  /** Relabelling does not move a reminder's due time, so relabelling and
      sorting can be applied in either order. */
  lemma {:induction false} RelabelCommutesWithSort(s: seq<Reminder>, now: int)
    ensures SortRemindersByDate(UpdateReminderStatuses(s, now))
         == UpdateReminderStatuses(SortRemindersByDate(s), now)
  {
    if s != [] {
      var u := UpdateReminderStatuses(s, now);
      assert u[1..] == UpdateReminderStatuses(s[1..], now);
      RelabelCommutesWithSort(s[1..], now);
      InsertRelabelled(s[0], SortRemindersByDate(s[1..]), now);
    }
  }

  /** What the reminder list shows: statuses relabelled, then sorted by due
      time, ascending and stable. */
  function DisplayedReminders(s: seq<Reminder>, now: int): (r: seq<Reminder>)
    ensures SortedByDate(r)
    ensures multiset(r) == multiset(UpdateReminderStatuses(s, now))
    ensures forall d :: WithDate(r, d) == WithDate(UpdateReminderStatuses(s, now), d)
  {
    var u := UpdateReminderStatuses(s, now);
    SortRemindersByDateSorted(u);
    SortRemindersByDateStable(u);
    SortRemindersByDate(u)
  }
}
