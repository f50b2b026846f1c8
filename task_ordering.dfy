/**
 * `ORDER BY` on one column of `tasks`, ascending or descending, as SQLite
 * evaluates it: NULL sorts before every value, integers before text, text
 * by code point (the binary collation), `status` by the member name
 * SQLAlchemy stores, booleans as 0 and 1.
 */
module TaskOrdering {
  import opened Wrappers
  import opened TaskModel

  /** The mapped columns of `Task`, the names a `sort_by` parameter can select. */
  datatype Column = Id | Title | Description | Status | DueDate | CreatedAt | UpdatedAt | UserId | Priority | IsArchived

  function ColumnName(c: Column): string {
    match c
    case Id => "id"
    case Title => "title"
    case Description => "description"
    case Status => "status"
    case DueDate => "due_date"
    case CreatedAt => "created_at"
    case UpdatedAt => "updated_at"
    case UserId => "user_id"
    case Priority => "priority"
    case IsArchived => "is_archived"
  }

  /** The column a `sort_by` string names, if it names one. */
  function ColumnNamed(name: string): (r: Option<Column>)
    ensures r.Some? ==> ColumnName(r.value) == name
    ensures r.None? ==> forall c: Column :: ColumnName(c) != name
  {
    if name == "id" then Some(Id)
    else if name == "title" then Some(Title)
    else if name == "description" then Some(Description)
    else if name == "status" then Some(Status)
    else if name == "due_date" then Some(DueDate)
    else if name == "created_at" then Some(CreatedAt)
    else if name == "updated_at" then Some(UpdatedAt)
    else if name == "user_id" then Some(UserId)
    else if name == "priority" then Some(Priority)
    else if name == "is_archived" then Some(IsArchived)
    else None
  }

  /** Every column is found again from its name. */
  lemma ColumnNameRoundTrip(c: Column)
    ensures ColumnNamed(ColumnName(c)) == Some(c)
  {
  }

  /** A stored value as the comparison sees it. */
  datatype SortKey = KNull | KInt(i: int) | KStr(s: string)

  function OptionalText(v: Option<string>): SortKey {
    if v.Some? then KStr(v.value) else KNull
  }

  function OptionalInt(v: Option<int>): SortKey {
    if v.Some? then KInt(v.value) else KNull
  }

  /** The value of column `c` in row `t`. */
  function Key(t: Task, c: Column): SortKey {
    match c
    case Id => KInt(t.id)
    case Title => KStr(t.title)
    case Description => OptionalText(t.description)
    case Status => KStr(StatusName(t.status))
    case DueDate => OptionalInt(t.dueDate)
    case CreatedAt => KInt(t.createdAt)
    case UpdatedAt => OptionalInt(t.updatedAt)
    case UserId => KInt(t.userId)
    case Priority => OptionalText(t.priority)
    case IsArchived =>
      if t.isArchived.None? then KNull else KInt(if t.isArchived.value then 1 else 0)
  }

  /** Lexicographic order on code points. */
  predicate StrLe(a: string, b: string)
    decreases |a|
  {
    |a| == 0 || (|b| > 0 && (a[0] < b[0] || (a[0] == b[0] && StrLe(a[1..], b[1..]))))
  }

  lemma {:induction false} StrLeTotal(a: string, b: string)
    ensures StrLe(a, b) || StrLe(b, a)
    decreases |a|
  {
    if |a| > 0 && |b| > 0 && a[0] == b[0] {
      StrLeTotal(a[1..], b[1..]);
    }
  }

  lemma {:induction false} StrLeTransitive(a: string, b: string, c: string)
    requires StrLe(a, b) && StrLe(b, c)
    ensures StrLe(a, c)
    decreases |a|
  {
    if |a| > 0 && a[0] == b[0] && b[0] == c[0] {
      StrLeTransitive(a[1..], b[1..], c[1..]);
    }
  }

  lemma {:induction false} StrLeAntisymmetric(a: string, b: string)
    requires StrLe(a, b) && StrLe(b, a)
    ensures a == b
    decreases |a|
  {
    if |a| > 0 {
      StrLeAntisymmetric(a[1..], b[1..]);
      assert a == [a[0]] + a[1..] && b == [b[0]] + b[1..];
    }
  }

  /** The order of SQLite's storage classes: NULL, then numbers, then text. */
  function Rank(k: SortKey): int {
    match k
    case KNull => 0
    case KInt(_) => 1
    case KStr(_) => 2
  }

  predicate KeyLe(a: SortKey, b: SortKey) {
    if Rank(a) != Rank(b) then Rank(a) < Rank(b)
    else if a.KInt? then a.i <= b.i
    else if a.KStr? then StrLe(a.s, b.s)
    else true
  }

  lemma KeyLeTotal(a: SortKey, b: SortKey)
    ensures KeyLe(a, b) || KeyLe(b, a)
  {
    if a.KStr? && b.KStr? {
      StrLeTotal(a.s, b.s);
    }
  }

  lemma KeyLeTransitive(a: SortKey, b: SortKey, c: SortKey)
    requires KeyLe(a, b) && KeyLe(b, c)
    ensures KeyLe(a, c)
  {
    if a.KStr? && b.KStr? && c.KStr? {
      StrLeTransitive(a.s, b.s, c.s);
    }
  }

  /** Row `a` may come before row `b` under `ORDER BY c ASC` (`desc` false) or `DESC`. */
  predicate InOrder(a: Task, b: Task, c: Column, desc: bool) {
    if desc then KeyLe(Key(b, c), Key(a, c)) else KeyLe(Key(a, c), Key(b, c))
  }

  lemma InOrderTotal(a: Task, b: Task, c: Column, desc: bool)
    ensures InOrder(a, b, c, desc) || InOrder(b, a, c, desc)
  {
    KeyLeTotal(Key(a, c), Key(b, c));
  }

  lemma InOrderTransitive(a: Task, b: Task, d: Task, c: Column, desc: bool)
    requires InOrder(a, b, c, desc) && InOrder(b, d, c, desc)
    ensures InOrder(a, d, c, desc)
  {
    if desc {
      KeyLeTransitive(Key(d, c), Key(b, c), Key(a, c));
    } else {
      KeyLeTransitive(Key(a, c), Key(b, c), Key(d, c));
    }
  }

  predicate SortedBy(s: seq<Task>, c: Column, desc: bool) {
    forall i, j :: 0 <= i < j < |s| ==> InOrder(s[i], s[j], c, desc)
  }

  /** A row that may precede the head of a sorted list may precede all of it. */
  lemma PrecedesSorted(x: Task, s: seq<Task>, c: Column, desc: bool)
    requires SortedBy(s, c, desc) && |s| > 0 && InOrder(x, s[0], c, desc)
    ensures SortedBy([x] + s, c, desc)
  {
    forall j | 0 < j < |s| ensures InOrder(x, s[j], c, desc) {
      InOrderTransitive(x, s[0], s[j], c, desc);
    }
  }

  /** Consing a row that may precede every element keeps a list sorted. */
  lemma ConsSorted(h: Task, r: seq<Task>, c: Column, desc: bool)
    requires SortedBy(r, c, desc)
    requires forall y :: y in multiset(r) ==> InOrder(h, y, c, desc)
    ensures SortedBy([h] + r, c, desc)
  {
    forall j | 0 <= j < |r| ensures InOrder(h, r[j], c, desc) {
      assert r[j] in multiset(r);
    }
  }

  /** The head of a sorted list may precede every element of its tail and any row it beats. */
  lemma HeadPrecedesInsert(s: seq<Task>, x: Task, r: seq<Task>, c: Column, desc: bool)
    requires SortedBy(s, c, desc) && |s| > 0 && InOrder(s[0], x, c, desc)
    requires multiset(r) == multiset(s[1..]) + multiset{x}
    ensures forall y :: y in multiset(r) ==> InOrder(s[0], y, c, desc)
  {
    forall y | y in multiset(r) ensures InOrder(s[0], y, c, desc) {
      if y != x {
        assert y in multiset(s[1..]);
        var j :| 0 <= j < |s[1..]| && s[1..][j] == y;
        assert s[j + 1] == y;
      }
    }
  }

  /** Place `x` before the first row it may precede. */
  function Insert(x: Task, s: seq<Task>, c: Column, desc: bool): (r: seq<Task>)
    requires SortedBy(s, c, desc)
    ensures SortedBy(r, c, desc)
    ensures multiset(r) == multiset(s) + multiset{x}
  {
    if |s| == 0 then [x]
    else if InOrder(x, s[0], c, desc) then
      PrecedesSorted(x, s, c, desc);
      [x] + s
    else
      InOrderTotal(x, s[0], c, desc);
      var rest := Insert(x, s[1..], c, desc);
      HeadPrecedesInsert(s, x, rest, c, desc);
      ConsSorted(s[0], rest, c, desc);
      assert s == [s[0]] + s[1..];
      [s[0]] + rest
  }

  /** `ORDER BY c`: the rows in the column's order, equal keys in their original order. */
  function SortTasks(s: seq<Task>, c: Column, desc: bool): (r: seq<Task>)
    ensures SortedBy(r, c, desc)
    ensures multiset(r) == multiset(s)
  {
    if |s| == 0 then []
    else
      assert s == [s[0]] + s[1..];
      Insert(s[0], SortTasks(s[1..], c, desc), c, desc)
  }
}
