/** The browser-side reminder service that keeps reminders in local storage
    (frontend/src/services/reminderService.ts). The storage entry under key
    `reminders` is the field `storage` of a `LocalReminderStore`; whether the
    build uses mock data is the constant `useMockData`. The clock (`new Date()`)
    and the id (`Date.now().toString()`) are parameters. */
module ClientReminderService {
  import opened Common
  import opened ReminderTypes
  import ReminderUtils

  /** The message an update of an unknown id is rejected with. */
  const NotFoundMessage := "Reminder not found"

  /** The storage entry as `getRemindersFromStorage` sees it. */
  datatype Entry =
    | Absent                        // nothing stored, or the empty string
    | Unreadable                    // `JSON.parse` throws, or the value has no `map`
    | Stored(items: seq<Reminder>)  // an array of reminders, dates revived

  /** `getRemindersFromStorage`: the stored list, or the empty list whenever
      there is none or it cannot be read. */
  function RemindersFromStorage(e: Entry): (r: seq<Reminder>)
    ensures e.Stored? ==> r == e.items
    ensures !e.Stored? ==> r == []
  {
    match e
    case Stored(items) => items
    case _ => []
  }

  /** The reminder `createReminder` builds: pending when due after `now`,
      overdue otherwise, created at `now`. */
  function NewReminder(data: CreateReminderData, id: string, now: int): (r: Reminder)
    ensures r.id == id && r.text == data.text && r.dateTime == data.dateTime && r.createdAt == now
    ensures r.status == Upcoming <==> data.dateTime > now
    ensures r.status != Completed
  {
    Reminder(id, data.text, data.dateTime, now, if data.dateTime > now then Upcoming else Overdue)
  }

  /** At its creation time the derived overdue label agrees with the status a
      new reminder is stored with. */
  lemma NewReminderAgreesWithRelabel(data: CreateReminderData, id: string, now: int)
    ensures ReminderUtils.Relabel(NewReminder(data, id, now), now) == NewReminder(data, id, now)
  {
  }

  /** A reminder created for the future is stored as upcoming and is shown as
      overdue once the clock passes its due time, with storage untouched. */
  lemma NewReminderLaterShownOverdue(data: CreateReminderData, id: string, now: int, later: int)
    requires data.dateTime > now && later > data.dateTime
    ensures NewReminder(data, id, now).status == Upcoming
    ensures ReminderUtils.UpdateReminderStatuses([NewReminder(data, id, now)], later)[0].status == Overdue
  {
    ReminderUtils.UpdateReminderStatusesAt([NewReminder(data, id, now)], later, 0);
  }

  /** `reminders.filter(r => r.id !== id)`. */
  function WithoutId(s: seq<Reminder>, id: string): (r: seq<Reminder>)
    ensures |r| <= |s|
    ensures forall k :: 0 <= k < |r| ==> r[k].id != id
  {
    if s == [] then []
    else (if s[0].id != id then [s[0]] else []) + WithoutId(s[1..], id)
  }

  /** Exactly the reminders with another id survive. */
  lemma {:induction false} WithoutIdMembers(s: seq<Reminder>, id: string, x: Reminder)
    ensures x in WithoutId(s, id) <==> x in s && x.id != id
  {
    if s != [] {
      WithoutIdMembers(s[1..], id, x);
      assert s == [s[0]] + s[1..];
    }
  }

  /** The survivors keep their order: removing from a concatenation removes
      from each part. */
  lemma {:induction false} WithoutIdAppend(a: seq<Reminder>, b: seq<Reminder>, id: string)
    ensures WithoutId(a + b, id) == WithoutId(a, id) + WithoutId(b, id)
  {
    if a == [] {
      assert a + b == b;
    } else {
      assert (a + b)[0] == a[0];
      assert (a + b)[1..] == a[1..] + b;
      WithoutIdAppend(a[1..], b, id);
      var head := if a[0].id != id then [a[0]] else [];
      assert WithoutId(a + b, id) == head + WithoutId(a[1..] + b, id);
      assert WithoutId(a, id) == head + WithoutId(a[1..], id);
    }
  }

  /** Removing an id no reminder carries leaves the list as it was. */
  lemma {:induction false} WithoutAbsentId(s: seq<Reminder>, id: string)
    requires forall k :: 0 <= k < |s| ==> s[k].id != id
    ensures WithoutId(s, id) == s
  {
    if s != [] {
      WithoutAbsentId(s[1..], id);
      assert s == [s[0]] + s[1..];
    }
  }

  /** `Partial<Reminder>`: the fields an update may carry. */
  datatype ReminderUpdates = ReminderUpdates(
    id: Option<string>,
    text: Option<string>,
    dateTime: Option<int>,
    createdAt: Option<int>,
    status: Option<Status>)

  /** `{...reminder, ...updates}`: every field the update carries wins, every
      other field is the reminder's. */
  function Merge(r: Reminder, u: ReminderUpdates): (m: Reminder)
    ensures u.id.Some? ==> m.id == u.id.value
    ensures u.id.None? ==> m.id == r.id
    ensures u.text.Some? ==> m.text == u.text.value
    ensures u.text.None? ==> m.text == r.text
    ensures u.dateTime.Some? ==> m.dateTime == u.dateTime.value
    ensures u.dateTime.None? ==> m.dateTime == r.dateTime
    ensures u.createdAt.Some? ==> m.createdAt == u.createdAt.value
    ensures u.createdAt.None? ==> m.createdAt == r.createdAt
    ensures u.status.Some? ==> m.status == u.status.value
    ensures u.status.None? ==> m.status == r.status
  {
    Reminder(u.id.GetOr(r.id), u.text.GetOr(r.text), u.dateTime.GetOr(r.dateTime),
             u.createdAt.GetOr(r.createdAt), u.status.GetOr(r.status))
  }

  /** Applying the same update twice is applying it once. */
  lemma MergeIdempotent(r: Reminder, u: ReminderUpdates)
    ensures Merge(Merge(r, u), u) == Merge(r, u)
  {
  }

  /** An update that carries no field changes nothing. */
  lemma MergeNothing(r: Reminder)
    ensures Merge(r, ReminderUpdates(None, None, None, None, None)) == r
  {
  }

  /** The position of the first reminder with this id, or -1 (`findIndex`). */
  function IndexOfId(s: seq<Reminder>, id: string): (i: int)
    ensures -1 <= i < |s|
    ensures i == -1 <==> forall k :: 0 <= k < |s| ==> s[k].id != id
    ensures i >= 0 ==> s[i].id == id && forall k :: 0 <= k < i ==> s[k].id != id
  {
    if s == [] then -1
    else if s[0].id == id then 0
    else
      var j := IndexOfId(s[1..], id);
      if j == -1 then -1 else j + 1
  }

  class LocalReminderStore {
    /** `import.meta.env.VITE_USE_MOCK_DATA === 'true'`. */
    const useMockData: bool
    /** The reminders served in mock mode. */
    const mockReminders: seq<Reminder>
    /** `localStorage['reminders']`. */
    var storage: Entry

    constructor (useMockData: bool, mockReminders: seq<Reminder>, storage: Entry)
      ensures this.useMockData == useMockData
      ensures this.mockReminders == mockReminders
      ensures this.storage == storage
    {
      this.useMockData := useMockData;
      this.mockReminders := mockReminders;
      this.storage := storage;
    }

    /** `createReminder`: builds the reminder and, outside mock mode, appends
        it to the stored list (an unreadable entry counts as empty). */
    method CreateReminder(data: CreateReminderData, id: string, now: int) returns (r: Reminder)
      modifies this
      ensures r == NewReminder(data, id, now)
      ensures useMockData ==> storage == old(storage)
      ensures !useMockData ==> storage == Stored(RemindersFromStorage(old(storage)) + [r])
    {
      r := NewReminder(data, id, now);
      if useMockData {
        return;
      }
      var reminders := RemindersFromStorage(storage);
      storage := Stored(reminders + [r]);
    }

    /** `getReminders`: the mock list, or what storage yields. */
    method GetReminders() returns (rs: seq<Reminder>)
      ensures useMockData ==> rs == mockReminders
      ensures !useMockData ==> (storage.Stored? ==> rs == storage.items) && (!storage.Stored? ==> rs == [])
    {
      if useMockData {
        return mockReminders;
      }
      rs := RemindersFromStorage(storage);
    }

    /** `deleteReminder`: outside mock mode, writes back the stored list
        without the reminders carrying `id`. */
    method DeleteReminder(id: string)
      modifies this
      ensures useMockData ==> storage == old(storage)
      ensures !useMockData ==> storage == Stored(WithoutId(RemindersFromStorage(old(storage)), id))
    {
      if useMockData {
        return;
      }
      var reminders := RemindersFromStorage(storage);
      storage := Stored(WithoutId(reminders, id));
    }

    /** `updateReminder`: finds the first reminder with `id` and overwrites it
        with the merged record, or rejects without writing anything. In mock
        mode the merge is computed on the mock list and nothing is stored. */
    method UpdateReminder(id: string, updates: ReminderUpdates) returns (res: Result<Reminder, string>)
      modifies this
      ensures useMockData ==> storage == old(storage)
      ensures useMockData ==>
        var i := IndexOfId(mockReminders, id);
        res == if i == -1 then Err(NotFoundMessage) else Ok(Merge(mockReminders[i], updates))
      ensures !useMockData ==>
        var list := RemindersFromStorage(old(storage));
        var i := IndexOfId(list, id);
        if i == -1 then res == Err(NotFoundMessage) && storage == old(storage)
        else res == Ok(Merge(list[i], updates)) && storage == Stored(list[i := Merge(list[i], updates)])
    {
      if useMockData {
        var i := IndexOfId(mockReminders, id);
        if i == -1 {
          return Err(NotFoundMessage);
        }
        return Ok(Merge(mockReminders[i], updates));
      }
      var list := RemindersFromStorage(storage);
      var reminders := new Reminder[|list|](k requires 0 <= k < |list| => list[k]);
      var reminderIndex := -1;
      var k := 0;
      while k < reminders.Length
        invariant 0 <= k <= reminders.Length
        invariant reminders[..] == list
        invariant reminderIndex == -1 ==> forall j :: 0 <= j < k ==> list[j].id != id
        invariant reminderIndex != -1 ==> reminderIndex == IndexOfId(list, id)
        decreases reminders.Length - k
      {
        if reminders[k].id == id {
          reminderIndex := k;
          break;
        }
        k := k + 1;
      }
      if reminderIndex == -1 {
        return Err(NotFoundMessage);
      }
      var updatedReminder := Merge(reminders[reminderIndex], updates);
      reminders[reminderIndex] := updatedReminder;
      storage := Stored(reminders[..]);
      res := Ok(updatedReminder);
    }
  }
}
