/** The `locations` table as a sequence of rows, with the queries both
    backends issue against it: lookup by id, delete by id, filtering, and
    the uniqueness the primary key and the UNIQUE name column impose. */
module Table {
  import opened Common

  /** The primary key: no two rows share an id. */
  predicate UniqueIds(t: seq<Row>) {
    forall i, j :: 0 <= i < j < |t| ==> t[i].id != t[j].id
  }

  /** The UNIQUE constraint on `name`. */
  predicate UniqueNames(t: seq<Row>) {
    forall i, j :: 0 <= i < j < |t| ==> t[i].name != t[j].name
  }

  /** Ids grow along the table, as they do when every insert draws a fresh
      id from an increasing counter and appends. */
  predicate IdsIncreasing(t: seq<Row>) {
    forall i, j :: 0 <= i < j < |t| ==> t[i].id < t[j].id
  }

  /** `SELECT * FROM locations WHERE id = ?`: the row with that id, if any. */
  function FindById(t: seq<Row>, id: int): (r: Option<Row>)
    ensures r.Some? ==> r.value in t && r.value.id == id
    ensures r.None? <==> forall x :: x in t ==> x.id != id
  {
    if t == [] then None
    else if t[0].id == id then Some(t[0])
    else FindById(t[1..], id)
  }

  predicate ExistsById(t: seq<Row>, id: int) {
    FindById(t, id).Some?
  }

  /** Under the primary key, the lookup returns the one row holding the id. */
  lemma {:induction false} FindByIdUnique(t: seq<Row>, x: Row)
    requires UniqueIds(t) && x in t
    ensures FindById(t, x.id) == Some(x)
  {
    if t[0] != x {
      assert x in t[1..];
      FindByIdUnique(t[1..], x);
    }
  }

  /** The set of ids present in the table. */
  function Ids(t: seq<Row>): set<int> {
    set x | x in t :: x.id
  }

  /** `SELECT count(*)` counts rows; under the primary key that is the
      number of distinct locations. */
  lemma {:induction false} CountIsDistinctIds(t: seq<Row>)
    requires UniqueIds(t)
    ensures |Ids(t)| == |t|
  {
    if t != [] {
      CountIsDistinctIds(t[1..]);
      assert Ids(t) == {t[0].id} + Ids(t[1..]);
      assert t[0].id !in Ids(t[1..]);
    }
  }

  /** `DELETE FROM locations WHERE id = ?`, or `filter(l => l.id !== id)`:
      every row with that id goes, the rest keep their order. */
  function WithoutId(t: seq<Row>, id: int): (r: seq<Row>)
    ensures forall x :: x in r <==> x in t && x.id != id
    ensures multiset(r) <= multiset(t)
  {
    if t == [] then []
    else
      assert t == [t[0]] + t[1..];
      if t[0].id == id then WithoutId(t[1..], id)
      else [t[0]] + WithoutId(t[1..], id)
  }

  /** A table's tail keeps its constraints, and its first row's id and name
      differ from (for increasing ids: lie below) every id and name after it. */
  lemma TailKeeps(t: seq<Row>)
    requires t != []
    ensures UniqueIds(t) ==> UniqueIds(t[1..]) && forall y :: y in t[1..] ==> y.id != t[0].id
    ensures UniqueNames(t) ==> UniqueNames(t[1..]) && forall y :: y in t[1..] ==> y.name != t[0].name
    ensures IdsIncreasing(t) ==> IdsIncreasing(t[1..]) && forall y :: y in t[1..] ==> t[0].id < y.id
  {
    var tail := t[1..];
    assert forall k :: 0 <= k < |tail| ==> tail[k] == t[k + 1];
  }

  /** Putting a row in front of a table keeps a constraint when the row
      agrees with every row behind it. */
  lemma ConsKeeps(h: Row, r: seq<Row>)
    ensures UniqueIds(r) && (forall y :: y in r ==> y.id != h.id) ==> UniqueIds([h] + r)
    ensures UniqueNames(r) && (forall y :: y in r ==> y.name != h.name) ==> UniqueNames([h] + r)
    ensures IdsIncreasing(r) && (forall y :: y in r ==> h.id < y.id) ==> IdsIncreasing([h] + r)
  {
    var s := [h] + r;
    assert forall j :: 1 <= j < |s| ==> s[j] == r[j - 1] && s[j] in r;
  }

  /** Appending a row whose id lies above every id in the table and whose
      name is new keeps ids increasing and names unique, and the lookup by
      its id then finds it. */
  lemma AppendKeeps(t: seq<Row>, row: Row)
    requires IdsIncreasing(t) && UniqueNames(t)
    requires forall x :: x in t ==> x.id < row.id && x.name != row.name
    ensures IdsIncreasing(t + [row]) && UniqueNames(t + [row])
    ensures FindById(t + [row], row.id) == Some(row)
  {
    var s := t + [row];
    forall i, j | 0 <= i < j < |s| ensures s[i].id < s[j].id && s[i].name != s[j].name {
      assert s[i] == t[i] && s[i] in t;
      if j < |t| {
        assert s[j] == t[j];
      }
    }
    FindByIdUnique(s, row);
  }

  /** Sequence identities the proofs below use, kept out of their context. */
  lemma SplitFirst(a: seq<Row>, b: seq<Row>)
    requires a != []
    ensures a == [a[0]] + a[1..]
    ensures a + b == [a[0]] + (a[1..] + b)
  {
  }

  lemma ConsConcat(h: Row, x: seq<Row>, y: seq<Row>)
    ensures [h] + (x + y) == ([h] + x) + y
  {
  }

  /** Deleting from a table with a known first row. */
  lemma WithoutIdCons(h: Row, t: seq<Row>, id: int)
    ensures WithoutId([h] + t, id) == if h.id == id then WithoutId(t, id) else [h] + WithoutId(t, id)
  {
    assert ([h] + t)[1..] == t;
  }

  /** Deletion works row by row: it distributes over concatenation, so the
      surviving rows keep their relative order. */
  lemma {:induction false} WithoutIdConcat(a: seq<Row>, b: seq<Row>, id: int)
    ensures WithoutId(a + b, id) == WithoutId(a, id) + WithoutId(b, id)
  {
    if a == [] {
      assert a + b == b;
    } else {
      var h, t := a[0], a[1..];
      WithoutIdConcat(t, b, id);
      SplitFirst(a, b);
      WithoutIdCons(h, t + b, id);
      WithoutIdCons(h, t, id);
      ConsConcat(h, WithoutId(t, id), WithoutId(b, id));
    }
  }

  /** Deleting an id that is already gone changes nothing. */
  lemma {:induction false} WithoutIdAbsent(t: seq<Row>, id: int)
    requires !ExistsById(t, id)
    ensures WithoutId(t, id) == t
  {
    if t != [] {
      WithoutIdAbsent(t[1..], id);
      assert t == [t[0]] + t[1..];
    }
  }

  /** Deleting twice is deleting once. */
  lemma WithoutIdIdempotent(t: seq<Row>, id: int)
    ensures WithoutId(WithoutId(t, id), id) == WithoutId(t, id)
  {
    WithoutIdAbsent(WithoutId(t, id), id);
  }

  /** Under the primary key, deleting a present id removes exactly one
      row: the table shrinks by one, and by `WithoutId`'s contract the rows
      that remain are exactly those with another id. */
  lemma {:induction false} WithoutIdRemovesOne(t: seq<Row>, x: Row)
    requires UniqueIds(t) && x in t
    ensures |WithoutId(t, x.id)| == |t| - 1
  {
    var h, tail := t[0], t[1..];
    SplitFirst(t, []);
    TailKeeps(t);
    WithoutIdCons(h, tail, x.id);
    if h == x {
      WithoutIdAbsent(tail, x.id);
    } else {
      assert x in tail;
      WithoutIdRemovesOne(tail, x);
    }
  }

  /** Deleting rows never breaks the primary key, the name constraint, or
      increasing ids. */
  lemma {:induction false} WithoutIdKeeps(t: seq<Row>, id: int)
    ensures UniqueIds(t) ==> UniqueIds(WithoutId(t, id))
    ensures UniqueNames(t) ==> UniqueNames(WithoutId(t, id))
    ensures IdsIncreasing(t) ==> IdsIncreasing(WithoutId(t, id))
  {
    if t != [] {
      TailKeeps(t);
      WithoutIdKeeps(t[1..], id);
      if t[0].id != id {
        ConsKeeps(t[0], WithoutId(t[1..], id));
      }
    }
  }

  /** Rows that satisfy `p`, in their original order. */
  function Filter(s: seq<Row>, p: Row -> bool): (r: seq<Row>)
    ensures forall x :: x in r <==> x in s && p(x)
    ensures multiset(r) <= multiset(s)
  {
    if s == [] then []
    else
      assert s == [s[0]] + s[1..];
      (if p(s[0]) then [s[0]] else []) + Filter(s[1..], p)
  }

  /** Filtering keeps increasing ids increasing. */
  lemma {:induction false} FilterKeepsIdsIncreasing(t: seq<Row>, p: Row -> bool)
    requires IdsIncreasing(t)
    ensures IdsIncreasing(Filter(t, p))
  {
    if t != [] {
      TailKeeps(t);
      FilterKeepsIdsIncreasing(t[1..], p);
      if p(t[0]) {
        ConsKeeps(t[0], Filter(t[1..], p));
      }
    }
  }
}
