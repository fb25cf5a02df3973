/** The backend's reminder row and the orderings `queryReminders` can ask the
    database for (backend/src/services/reminder.service.ts). Timestamps are
    integers; text columns compare character by character. */
module ReminderRecord {
  import opened Common

  /** One row of the reminder table. */
  datatype Record = Record(
    id: nat,
    text: string,
    dateTime: int,
    status: string,
    createdAt: int,
    updatedAt: int,
    userId: int)

  /** The columns a query may be ordered by. */
  datatype Field = Id | Text | DateTime | Status | CreatedAt | UpdatedAt | UserId

  /** A `sortBy` name, resolved to a column if the table has one by that name. */
  function FieldNamed(name: string): (f: Option<Field>)
    ensures f == Some(CreatedAt) <==> name == "createdAt"
    ensures f == Some(DateTime) <==> name == "dateTime"
  {
    match name
    case "id" => Some(Id)
    case "text" => Some(Text)
    case "dateTime" => Some(DateTime)
    case "status" => Some(Status)
    case "createdAt" => Some(CreatedAt)
    case "updatedAt" => Some(UpdatedAt)
    case "userId" => Some(UserId)
    case _ => None
  }

  /** `'asc' | 'desc'`. */
  datatype Direction = Asc | Desc

  /** An `orderBy` clause: one column and a direction. */
  datatype Order = Order(field: Field, direction: Direction)

  // ---------------------------------------------------------------------
  // Comparing column values
  // ---------------------------------------------------------------------

  /** Lexicographic order on strings, by character code. */
  predicate StrLe(a: string, b: string) {
    a == [] || (b != [] && (a[0] < b[0] || (a[0] == b[0] && StrLe(a[1..], b[1..]))))
  }

  lemma {:induction false} StrLeTotal(a: string, b: string)
    ensures StrLe(a, b) || StrLe(b, a)
  {
    if a != [] && b != [] && a[0] == b[0] {
      StrLeTotal(a[1..], b[1..]);
    }
  }

  lemma {:induction false} StrLeTransitive(a: string, b: string, c: string)
    requires StrLe(a, b) && StrLe(b, c)
    ensures StrLe(a, c)
  {
    if a != [] && a[0] == b[0] && b[0] == c[0] {
      StrLeTransitive(a[1..], b[1..], c[1..]);
    }
  }

  /** A column value. */
  datatype Key = Num(n: int) | Str(s: string)

  /** Non-strict order on column values (numbers before strings, which never
      happens within one column). */
  predicate KeyLe(a: Key, b: Key) {
    match (a, b)
    case (Num(x), Num(y)) => x <= y
    case (Str(x), Str(y)) => StrLe(x, y)
    case (Num(_), Str(_)) => true
    case (Str(_), Num(_)) => false
  }

  function KeyOf(r: Record, f: Field): Key {
    match f
    case Id => Num(r.id)
    case Text => Str(r.text)
    case DateTime => Num(r.dateTime)
    case Status => Str(r.status)
    case CreatedAt => Num(r.createdAt)
    case UpdatedAt => Num(r.updatedAt)
    case UserId => Num(r.userId)
  }

  /** `a` may be listed before `b` under order `o`. */
  predicate Precedes(a: Record, b: Record, o: Order) {
    if o.direction == Asc then KeyLe(KeyOf(a, o.field), KeyOf(b, o.field))
    else KeyLe(KeyOf(b, o.field), KeyOf(a, o.field))
  }

  lemma PrecedesTotal(a: Record, b: Record, o: Order)
    ensures Precedes(a, b, o) || Precedes(b, a, o)
  {
    var ka, kb := KeyOf(a, o.field), KeyOf(b, o.field);
    if ka.Str? && kb.Str? {
      StrLeTotal(ka.s, kb.s);
    }
  }

  lemma PrecedesTransitive(a: Record, b: Record, c: Record, o: Order)
    requires Precedes(a, b, o) && Precedes(b, c, o)
    ensures Precedes(a, c, o)
  {
    var ka, kb, kc := KeyOf(a, o.field), KeyOf(b, o.field), KeyOf(c, o.field);
    if ka.Str? && kb.Str? && kc.Str? {
      if o.direction == Asc {
        StrLeTransitive(ka.s, kb.s, kc.s);
      } else {
        StrLeTransitive(kc.s, kb.s, ka.s);
      }
    }
  }

  // ---------------------------------------------------------------------
  // Ordering a list of rows
  // ---------------------------------------------------------------------

  predicate SortedBy(s: seq<Record>, o: Order) {
    forall i, j :: 0 <= i < j < |s| ==> Precedes(s[i], s[j], o)
  }

  /** Puts `x` in front of the first row it may precede. */
  function InsertBy(x: Record, s: seq<Record>, o: Order): (r: seq<Record>)
    ensures |r| == |s| + 1
    ensures multiset(r) == multiset(s) + multiset{x}
  {
    if s == [] || Precedes(x, s[0], o) then [x] + s
    else
      assert s == [s[0]] + s[1..];
      [s[0]] + InsertBy(x, s[1..], o)
  }

  /** The rows in the order `o` asks for; rows the order does not separate
      keep their table order. */
  function SortBy(s: seq<Record>, o: Order): (r: seq<Record>)
    ensures |r| == |s|
    ensures multiset(r) == multiset(s)
  {
    if s == [] then []
    else
      assert s == [s[0]] + s[1..];
      InsertBy(s[0], SortBy(s[1..], o), o)
  }

  /** A row that may precede every row of an ordered list can head it. */
  lemma ConsSorted(y: Record, s: seq<Record>, o: Order)
    requires SortedBy(s, o)
    requires forall k :: 0 <= k < |s| ==> Precedes(y, s[k], o)
    ensures SortedBy([y] + s, o)
  {
    var r := [y] + s;
    forall i, j | 0 <= i < j < |r| ensures Precedes(r[i], r[j], o) {
      assert r[j] == s[j - 1];
      if i > 0 {
        assert r[i] == s[i - 1];
      }
    }
  }

  lemma {:induction false} InsertBySorted(x: Record, s: seq<Record>, o: Order)
    requires SortedBy(s, o)
    ensures SortedBy(InsertBy(x, s, o), o)
  {
    if s == [] {
      assert InsertBy(x, s, o) == [x];
    } else if Precedes(x, s[0], o) {
      forall k | 0 <= k < |s| ensures Precedes(x, s[k], o) {
        if k > 0 {
          PrecedesTransitive(x, s[0], s[k], o);
        }
      }
      ConsSorted(x, s, o);
      assert InsertBy(x, s, o) == [x] + s;
    } else {
      PrecedesTotal(x, s[0], o);
      var rest := InsertBy(x, s[1..], o);
      assert SortedBy(s[1..], o);
      InsertBySorted(x, s[1..], o);
      forall j | 0 <= j < |rest| ensures Precedes(s[0], rest[j], o) {
        assert rest[j] in multiset(rest);
        if rest[j] != x {
          assert rest[j] in multiset(s[1..]);
          var k :| 0 <= k < |s[1..]| && s[1..][k] == rest[j];
          assert s[k + 1] == rest[j];
        }
      }
      ConsSorted(s[0], rest, o);
      assert InsertBy(x, s, o) == [s[0]] + rest;
    }
  }

  /** The ordered rows satisfy the order. */
  lemma {:induction false} SortBySorted(s: seq<Record>, o: Order)
    ensures SortedBy(SortBy(s, o), o)
  {
    if s != [] {
      SortBySorted(s[1..], o);
      InsertBySorted(s[0], SortBy(s[1..], o), o);
    }
  }

  /** A run of consecutive rows of an ordered list is ordered and holds
      only rows of the list. */
  lemma SliceSorted(s: seq<Record>, a: int, b: int, o: Order)
    requires 0 <= a <= b <= |s| && SortedBy(s, o)
    ensures SortedBy(s[a..b], o)
    ensures forall k :: 0 <= k < b - a ==> s[a..b][k] in multiset(s)
  {
    var t := s[a..b];
    forall i, j | 0 <= i < j < |t| ensures Precedes(t[i], t[j], o) {
      assert t[i] == s[a + i] && t[j] == s[a + j];
    }
    forall k | 0 <= k < |t| ensures t[k] in multiset(s) {
      assert t[k] == s[a + k];
    }
  }

  /** Under a descending order on `createdAt`, newer rows come first. */
  lemma NewestFirst(s: seq<Record>)
    requires SortedBy(s, Order(CreatedAt, Desc))
    ensures forall i, j :: 0 <= i < j < |s| ==> s[i].createdAt >= s[j].createdAt
  {
    forall i, j | 0 <= i < j < |s| ensures s[i].createdAt >= s[j].createdAt {
      assert Precedes(s[i], s[j], Order(CreatedAt, Desc));
    }
  }
}
