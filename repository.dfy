/** `LocationRepository`: the derived and declared queries over the
    `locations` table, and the effect on the table of the `save` it
    inherits from JpaRepository. */
module LocationRepository {
  import opened Common
  import opened Text
  import opened Table

  /** `a` may precede `b` under `ORDER BY timestamp DESC`; SQLite sorts
      NULL below every value, so NULL timestamps come last. */
  predicate NewerOrSame(a: Row, b: Row) {
    b.timestamp.None? || (a.timestamp.Some? && a.timestamp.value >= b.timestamp.value)
  }

  predicate NewestFirst(s: seq<Row>) {
    forall i, j :: 0 <= i < j < |s| ==> NewerOrSame(s[i], s[j])
  }

  lemma PrependNewest(h: Row, s: seq<Row>)
    requires NewestFirst(s)
    requires forall y :: y in s ==> NewerOrSame(h, y)
    ensures NewestFirst([h] + s)
  {
    var r := [h] + s;
    forall i, j | 0 <= i < j < |r| ensures NewerOrSame(r[i], r[j]) {
      if i == 0 {
        assert r[j] in s;
      } else {
        assert r[i] == s[i - 1] && r[j] == s[j - 1];
      }
    }
  }

  function InsertNewestFirst(x: Row, s: seq<Row>): (r: seq<Row>)
    requires NewestFirst(s)
    ensures NewestFirst(r)
    ensures multiset(r) == multiset(s) + multiset{x}
  {
    if s == [] then [x]
    else if NewerOrSame(x, s[0]) then
      assert forall y :: y in s ==> NewerOrSame(x, y) by {
        forall y | y in s ensures NewerOrSame(x, y) {
          var j :| 0 <= j < |s| && s[j] == y;
          if j > 0 { assert NewerOrSame(s[0], s[j]); }
        }
      }
      PrependNewest(x, s);
      [x] + s
    else
      assert s == [s[0]] + s[1..];
      var r := InsertNewestFirst(x, s[1..]);
      assert forall y :: y in r ==> y == x || y in s[1..] by {
        forall y | y in r ensures y == x || y in s[1..] {
          assert y in multiset(r);
        }
      }
      assert forall y :: y in s[1..] ==> NewerOrSame(s[0], y) by {
        forall y | y in s[1..] ensures NewerOrSame(s[0], y) {
          var j :| 0 <= j < |s[1..]| && s[1..][j] == y;
          assert s[j + 1] == y;
        }
      }
      PrependNewest(s[0], r);
      [s[0]] + r
  }

  /** The order the database returns rows in; rows with equal timestamps
      may come in either order, and no contract here depends on which. */
  function SortNewestFirst(s: seq<Row>): (r: seq<Row>)
    ensures NewestFirst(r)
    ensures multiset(r) == multiset(s)
  {
    if s == [] then []
    else
      assert s == [s[0]] + s[1..];
      InsertNewestFirst(s[0], SortNewestFirst(s[1..]))
  }

  /** `findAllByOrderByTimestampDesc`: every row, newest first. */
  function FindAllByOrderByTimestampDesc(t: seq<Row>): (r: seq<Row>)
    ensures NewestFirst(r)
    ensures multiset(r) == multiset(t) && |r| == |t|
  {
    var r := SortNewestFirst(t);
    assert |r| == |multiset(r)|;
    r
  }

  /** `findByName`: the row holding `name`, if any. */
  function FindByName(t: seq<Row>, name: string): (r: Option<Row>)
    ensures r.Some? ==> r.value in t && r.value.name == name
    ensures r.None? <==> forall x :: x in t ==> x.name != name
  {
    if t == [] then None
    else if t[0].name == name then Some(t[0])
    else FindByName(t[1..], name)
  }

  /** `existsByName`: whether some row holds `name`. */
  function ExistsByName(t: seq<Row>, name: string): (b: bool)
    ensures b <==> exists x :: x in t && x.name == name
  {
    FindByName(t, name).Some?
  }

  /** Under the UNIQUE name constraint `findByName` returns the one row
      holding the name. */
  lemma {:induction false} FindByNameUnique(t: seq<Row>, x: Row)
    requires UniqueNames(t) && x in t
    ensures FindByName(t, x.name) == Some(x)
  {
    if t[0] != x {
      assert x in t[1..];
      FindByNameUnique(t[1..], x);
    }
  }

  /** `searchByName`: the rows whose lower-cased name contains the
      lower-cased keyword, newest first. */
  function SearchByName(t: seq<Row>, keyword: string): (r: seq<Row>)
    ensures NewestFirst(r)
    ensures forall x :: x in r <==> x in t && ContainsIgnoringCase(x.name, keyword)
    ensures multiset(r) <= multiset(t)
  {
    var p := (x: Row) => ContainsIgnoringCase(x.name, keyword);
    var matching := Filter(t, p);
    var r := SortNewestFirst(matching);
    forall x
      ensures x in r <==> x in t && ContainsIgnoringCase(x.name, keyword)
    {
      assert x in r <==> x in multiset(r);
      assert x in matching <==> x in multiset(matching);
      assert p(x) == ContainsIgnoringCase(x.name, keyword);
    }
    r
  }

  /** The search is case-insensitive in its keyword: a keyword and its
      lower-cased form find the same rows. */
  lemma SearchIgnoresKeywordCase(t: seq<Row>, keyword: string)
    ensures forall x :: x in SearchByName(t, keyword) <==> x in SearchByName(t, Lower(keyword))
  {
    LowerIdempotent(keyword);
  }

  /** The table after JpaRepository's `save` flushes `row`: the row holding
      the same id is replaced in place, or `row` is appended. */
  function Save(t: seq<Row>, row: Row): (r: seq<Row>)
    ensures FindById(r, row.id) == Some(row)
    ensures !ExistsById(t, row.id) ==> r == t + [row]
    ensures |r| == if ExistsById(t, row.id) then |t| else |t| + 1
    ensures forall x :: x in r ==> x == row || x in t
    ensures forall x :: x in t && x.id != row.id ==> x in r
  {
    if t == [] then [row]
    else if t[0].id == row.id then [row] + t[1..]
    else
      assert t == [t[0]] + t[1..];
      [t[0]] + Save(t[1..], row)
  }

  /** Saving keeps the primary key, and keeps names unique when no other
      row already holds the saved name. */
  lemma {:induction false} SaveKeeps(t: seq<Row>, row: Row)
    requires UniqueIds(t)
    ensures UniqueIds(Save(t, row))
    ensures UniqueNames(t) && (forall x :: x in t && x.id != row.id ==> x.name != row.name)
            ==> UniqueNames(Save(t, row))
  {
    if t != [] {
      var tail := t[1..];
      assert forall j :: 0 <= j < |tail| ==> tail[j] == t[j + 1];
      assert forall y :: y in tail ==> y.id != t[0].id;
      assert UniqueIds(tail);
      assert UniqueNames(t) ==> UniqueNames(tail) && forall y :: y in tail ==> y.name != t[0].name;
      if t[0].id == row.id {
        ConsKeeps(row, tail);
      } else {
        SaveKeeps(tail, row);
        ConsKeeps(t[0], Save(tail, row));
      }
    }
  }
}
