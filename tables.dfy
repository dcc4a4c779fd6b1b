/** A database table as the helpers see it: rows keyed by a serial primary key,
    and the next value of that key's sequence. Queries enumerate rows in
    ascending key order. */
module Tables {

  import opened Outcomes

  type Id = int

  datatype Row<+T> = Row(id: Id, rec: T)

  datatype Table<T> = Table(rows: map<Id, T>, next: Id)

  /** Every key was handed out by the sequence, which starts at 1. */
  ghost predicate Valid<T>(t: Table<T>) {
    t.next >= 1 && forall id :: id in t.rows ==> 1 <= id < t.next
  }

  function Empty<T>(): (t: Table<T>)
    ensures Valid(t) && |t.rows| == 0
  {
    Table(map[], 1)
  }

  /** `db.session.add(row)`: the row gets the next key of the sequence. */
  function Insert<T>(t: Table<T>, rec: T): (r: (Table<T>, Id))
    ensures r.1 == t.next && r.0.next == t.next + 1 && r.0.rows == t.rows[t.next := rec]
    ensures Valid(t) ==> Valid(r.0) && r.1 !in t.rows && |r.0.rows| == |t.rows| + 1
  {
    (Table(t.rows[t.next := rec], t.next + 1), t.next)
  }

  /** `db.session.delete(row)`: the sequence is not rewound. */
  function Remove<T>(t: Table<T>, id: Id): (r: Table<T>)
    ensures r.next == t.next && r.rows.Keys == t.rows.Keys - {id}
    ensures forall k :: k in r.rows ==> r.rows[k] == t.rows[k]
    ensures Valid(t) ==> Valid(r)
  {
    Table(t.rows - {id}, t.next)
  }

  /** Assigning fields of a row and committing. */
  function Put<T>(t: Table<T>, id: Id, rec: T): (r: Table<T>)
    requires id in t.rows
    ensures r.next == t.next && r.rows == t.rows[id := rec] && r.rows.Keys == t.rows.Keys
    ensures Valid(t) ==> Valid(r)
  {
    Table(t.rows[id := rec], t.next)
  }

  /** The keys below `n` whose rows satisfy `p`. */
  ghost function MatchingBelow<T>(rows: map<Id, T>, n: Id, p: T -> bool): set<Id> {
    set id | id in rows && 1 <= id < n && p(rows[id])
  }

  /** The rows with keys in [1, n) that satisfy `p`, in ascending key order. */
  function SelectBelow<T>(rows: map<Id, T>, n: Id, p: T -> bool): seq<Row<T>>
    decreases n
  {
    if n <= 1 then []
    else SelectBelow(rows, n - 1, p) + (if n - 1 in rows && p(rows[n - 1]) then [Row(n - 1, rows[n - 1])] else [])
  }

  lemma {:induction false} SelectBelowSound<T>(rows: map<Id, T>, n: Id, p: T -> bool)
    ensures forall i :: 0 <= i < |SelectBelow(rows, n, p)| ==>
      var row := SelectBelow(rows, n, p)[i]; row.id in rows && rows[row.id] == row.rec && p(row.rec) && 1 <= row.id < n
    decreases n
  {
    if n > 1 { SelectBelowSound(rows, n - 1, p); }
  }

  lemma {:induction false} SelectBelowComplete<T>(rows: map<Id, T>, n: Id, p: T -> bool)
    ensures forall id :: id in rows && 1 <= id < n && p(rows[id]) ==> Row(id, rows[id]) in SelectBelow(rows, n, p)
    decreases n
  {
    if n > 1 { SelectBelowComplete(rows, n - 1, p); }
  }

  /** `Model.query.filter(p).all()`: exactly the matching rows. */
  function Select<T>(t: Table<T>, p: T -> bool): (r: seq<Row<T>>)
    ensures forall i :: 0 <= i < |r| ==> r[i].id in t.rows && t.rows[r[i].id] == r[i].rec && p(r[i].rec)
    ensures Valid(t) ==> forall id :: id in t.rows && p(t.rows[id]) ==> Row(id, t.rows[id]) in r
  {
    SelectBelowSound(t.rows, t.next, p);
    SelectBelowComplete(t.rows, t.next, p);
    SelectBelow(t.rows, t.next, p)
  }

  lemma {:induction false} SelectBelowAscending<T>(rows: map<Id, T>, n: Id, p: T -> bool)
    ensures forall i, j :: 0 <= i < j < |SelectBelow(rows, n, p)| ==> SelectBelow(rows, n, p)[i].id < SelectBelow(rows, n, p)[j].id
    decreases n
  {
    if n > 1 {
      SelectBelowAscending(rows, n - 1, p);
      SelectBelowSound(rows, n - 1, p);
    }
  }

  /** The list is in strictly ascending key order, so no row appears twice. */
  lemma SelectAscending<T>(t: Table<T>, p: T -> bool)
    ensures forall i, j :: 0 <= i < j < |Select(t, p)| ==> Select(t, p)[i].id < Select(t, p)[j].id
  {
    SelectBelowAscending(t.rows, t.next, p);
  }

  /** `Model.query.filter(p).first()`: the matching row with the smallest key. */
  function First<T>(t: Table<T>, p: T -> bool): (r: Option<Row<T>>)
    ensures r.Some? ==> r.value.id in t.rows && t.rows[r.value.id] == r.value.rec && p(r.value.rec)
    ensures Valid(t) ==> (r.None? <==> forall id :: id in t.rows ==> !p(t.rows[id]))
    ensures Valid(t) && r.Some? ==> forall id :: id in t.rows && p(t.rows[id]) ==> r.value.id <= id
  {
    var all := Select(t, p);
    if all == [] then None
    else
      assert Valid(t) ==> forall id :: id in t.rows && p(t.rows[id]) ==> all[0].id <= id by {
        if Valid(t) {
          SelectAscending(t, p);
          forall id | id in t.rows && p(t.rows[id]) ensures all[0].id <= id {
            var k :| 0 <= k < |all| && all[k] == Row(id, t.rows[id]);
          }
        }
      }
      Some(all[0])
  }

  /** `Model.query.get(id)`. */
  function Get<T>(t: Table<T>, id: Id): (r: Option<T>)
    ensures r.Some? <==> id in t.rows
    ensures r.Some? ==> r.value == t.rows[id]
  {
    if id in t.rows then Some(t.rows[id]) else None
  }

  /** A query returns as many rows as there are matching keys. */
  lemma {:induction false} SelectBelowCount<T>(rows: map<Id, T>, n: Id, p: T -> bool)
    ensures |SelectBelow(rows, n, p)| == |MatchingBelow(rows, n, p)|
    decreases n
  {
    if n <= 1 {
      assert MatchingBelow(rows, n, p) == {};
    } else {
      SelectBelowCount(rows, n - 1, p);
      var before := MatchingBelow(rows, n - 1, p);
      if n - 1 in rows && p(rows[n - 1]) {
        assert MatchingBelow(rows, n, p) == before + {n - 1};
      } else {
        assert MatchingBelow(rows, n, p) == before;
      }
    }
  }

  /** The keys of the rows satisfying `p`. */
  ghost function Matching<T>(t: Table<T>, p: T -> bool): set<Id> {
    set id | id in t.rows && p(t.rows[id])
  }

  /** `db.func.count(...)` with a filter equals the length of the matching list. */
  lemma SelectCount<T>(t: Table<T>, p: T -> bool)
    requires Valid(t)
    ensures |Select(t, p)| == |Matching(t, p)|
  {
    SelectBelowCount(t.rows, t.next, p);
    assert MatchingBelow(t.rows, t.next, p) == Matching(t, p);
  }

  /** With a filter that holds everywhere, the list has one entry per row. */
  lemma SelectAllCount<T>(t: Table<T>, p: T -> bool)
    requires Valid(t)
    requires forall x :: p(x)
    ensures |Select(t, p)| == |t.rows|
  {
    SelectCount(t, p);
    assert Matching(t, p) == t.rows.Keys;
  }

  /** An empty list means no row matches, and nothing matches in an empty table. */
  lemma SelectEmpty<T>(t: Table<T>, p: T -> bool)
    requires Valid(t)
    ensures Select(t, p) == [] <==> forall id :: id in t.rows ==> !p(t.rows[id])
  {
    if Select(t, p) != [] {
      var r := Select(t, p)[0];
      assert r.id in t.rows && p(t.rows[r.id]);
    }
  }

  predicate All<T>(x: T) { true }

  /** Rows at or above `n` do not affect the list below `n`. */
  lemma {:induction false} SelectBelowIgnoresAbove<T>(rows: map<Id, T>, n: Id, k: Id, x: T, p: T -> bool)
    requires k >= n
    ensures SelectBelow(rows[k := x], n, p) == SelectBelow(rows, n, p)
    decreases n
  {
    if n > 1 { SelectBelowIgnoresAbove(rows, n - 1, k, x, p); }
  }

  /** A new row is listed last, when it matches. */
  lemma SelectInsert<T>(t: Table<T>, x: T, p: T -> bool)
    ensures Select(Insert(t, x).0, p) == Select(t, p) + (if p(x) && t.next >= 1 then [Row(t.next, x)] else [])
  {
    var rows := t.rows[t.next := x];
    SelectBelowIgnoresAbove(t.rows, t.next, t.next, x, p);
    if t.next < 1 {
      assert SelectBelow(rows, t.next + 1, p) == [] && SelectBelow(t.rows, t.next, p) == [];
    }
  }
}
