/** The Express backend: the same `locations` table, an explicit
    `id_generator` counter row, and four routes whose rules differ from the
    Spring backend's (name is required, duplicates give 409, search needs a
    keyword and also matches addresses, lists are ordered by id). */
module NodeServer {
  import opened Common
  import opened Text
  import opened Table

  /** A field of a parsed JSON request body. */
  datatype Field<+T> = Undefined | Null | Present(value: T)

  /** JavaScript falsiness of a string field: undefined, null or "". */
  predicate Falsy(f: Field<string>) {
    f.Undefined? || f.Null? || (f.Present? && f.value == "")
  }

  datatype CreateBody = CreateBody(
    name: Field<string>,
    address: Field<string>,
    latitude: Field<Coord>,
    longitude: Field<Coord>)

  /** The POST route's check: name and address must be truthy, the
      coordinates merely not undefined (so a JSON null gets through). */
  predicate Rejected(b: CreateBody) {
    Falsy(b.name) || Falsy(b.address) || b.latitude.Undefined? || b.longitude.Undefined?
  }

  /** The constraint errors SQLite raises on INSERT. Their messages read
      "NOT NULL constraint failed: ..." and "UNIQUE constraint failed: ...",
      so the route's `includes('UNIQUE constraint failed')` picks out Unique. */
  datatype SqlError = NotNull(column: string) | Unique(column: string)

  datatype Body =
    | Rows(rows: seq<Row>)
    | Single(row: Row)
    | Error(error: string)
    | Deleted(message: string, id: int)

  datatype Reply = Reply(status: int, body: Body)

  /** `ORDER BY id DESC`. */
  predicate NewestIdFirst(s: seq<Row>) {
    forall i, j :: 0 <= i < j < |s| ==> s[i].id > s[j].id
  }

  function Reverse(s: seq<Row>): (r: seq<Row>)
    ensures |r| == |s|
    ensures forall i :: 0 <= i < |s| ==> r[i] == s[|s| - 1 - i]
    ensures multiset(r) == multiset(s)
  {
    if s == [] then []
    else
      assert s == [s[0]] + s[1..];
      Reverse(s[1..]) + [s[0]]
  }

  /** Rows kept in increasing id order read backwards come out by id
      descending, and they are the same rows. */
  lemma ReverseOrdersByIdDesc(s: seq<Row>)
    requires IdsIncreasing(s)
    ensures NewestIdFirst(Reverse(s))
    ensures forall x :: x in Reverse(s) <==> x in s
  {
    var r := Reverse(s);
    forall x ensures x in r <==> x in s {
      assert x in r <==> x in multiset(r);
    }
  }

  /** The search route's match: the keyword inside the name or inside the
      address, ignoring ASCII case as SQLite's LIKE does. */
  predicate Matches(x: Row, keyword: string) {
    ContainsIgnoringCase(x.name, keyword) || ContainsIgnoringCase(x.address, keyword)
  }

  /** The search route ignores the keyword's case: a keyword and its
      lower-cased form match the same rows. */
  lemma MatchesIgnoresKeywordCase(x: Row, keyword: string)
    ensures Matches(x, Lower(keyword)) <==> Matches(x, keyword)
  {
    LowerIdempotent(keyword);
  }

  /** What `INSERT INTO locations` does with these values: the NOT NULL
      columns are checked first, then the primary key and UNIQUE(name). */
  function Insert(t: seq<Row>, id: int, name: string, address: string,
                  latitude: Field<Coord>, longitude: Field<Coord>, timestamp: Timestamp): (r: Result)
    ensures r.Inserted? <==>
              && latitude.Present? && longitude.Present?
              && !ExistsById(t, id) && forall x :: x in t ==> x.name != name
    ensures r.Inserted? ==>
              r.row == Row(id, name, address, latitude.value, longitude.value, Some(timestamp))
    ensures r.Failed? && r.error.Unique? <==>
              && latitude.Present? && longitude.Present?
              && (ExistsById(t, id) || exists x :: x in t && x.name == name)
  {
    if !latitude.Present? then Failed(NotNull("latitude"))
    else if !longitude.Present? then Failed(NotNull("longitude"))
    else if ExistsById(t, id) then Failed(Unique("id"))
    else if exists x :: x in t && x.name == name then Failed(Unique("name"))
    else Inserted(Row(id, name, address, latitude.value, longitude.value, Some(timestamp)))
  }

  datatype Result = Inserted(row: Row) | Failed(error: SqlError)

  class Server {
    /** The `locations` table, in rowid (that is, id) order. */
    var locations: seq<Row>
    /** `gen_value` of the `location_id` row in `id_generator`. */
    var genValue: int

    ghost predicate Valid()
      reads this
    {
      && IdsIncreasing(locations)
      && UniqueNames(locations)
      && forall x :: x in locations ==> x.id <= genValue
    }

    /** `initializeDatabase`: empty table, counter row seeded with 0. */
    constructor ()
      ensures Valid() && locations == [] && genValue == 0
    {
      locations := [];
      genValue := 0;
    }

    /** `getNextId`: add one to the counter and hand out the new value. */
    method GetNextId() returns (id: int)
      modifies this`genValue
      ensures genValue == old(genValue) + 1
      ensures id == genValue
    {
      genValue := genValue + 1;
      id := genValue;
    }

    /** POST /api/locations. The id is drawn before the INSERT, so an insert
        that fails still uses up an id. */
    method CreateLocation(body: CreateBody, now: Timestamp) returns (reply: Reply)
      requires Valid()
      modifies this
      ensures Valid()
      ensures Rejected(body) ==>
                && reply == Reply(400, Error("Missing required fields: name, address, latitude, longitude"))
                && unchanged(this)
      ensures !Rejected(body) ==> genValue == old(genValue) + 1
      ensures reply.status != 201 ==> locations == old(locations)
      ensures !Rejected(body) && (body.latitude.Null? || body.longitude.Null?) ==>
                reply == Reply(500, Error("Failed to save location"))
      ensures !Rejected(body) && (exists x :: x in old(locations) && x.name == body.name.value)
              && body.latitude.Present? && body.longitude.Present? ==>
                reply == Reply(409, Error("Location name already exists"))
      ensures reply.status == 201 <==>
                && !Rejected(body) && body.latitude.Present? && body.longitude.Present?
                && forall x :: x in old(locations) ==> x.name != body.name.value
      ensures reply.status == 201 ==>
                && reply.body == Single(Row(genValue, body.name.value, body.address.value,
                                            body.latitude.value, body.longitude.value, Some(now)))
                && locations == old(locations) + [reply.body.row]
    {
      if Falsy(body.name) || Falsy(body.address) || body.latitude.Undefined? || body.longitude.Undefined? {
        return Reply(400, Error("Missing required fields: name, address, latitude, longitude"));
      }
      var id := GetNextId();
      var inserted := Insert(locations, id, body.name.value, body.address.value,
                             body.latitude, body.longitude, now);
      match inserted
      case Failed(error) =>
        if error.Unique? {
          reply := Reply(409, Error("Location name already exists"));
        } else {
          reply := Reply(500, Error("Failed to save location"));
        }
      case Inserted(row) =>
        AppendKeeps(locations, row);
        locations := locations + [row];
        var found := FindById(locations, id);
        reply := Reply(201, Single(found.value));
    }

    /** DELETE /api/locations/:id: 404 when no row changed. */
    method DeleteLocation(id: int) returns (reply: Reply)
      requires Valid()
      modifies this`locations
      ensures Valid()
      ensures locations == WithoutId(old(locations), id)
      ensures reply.status == 404 <==> !ExistsById(old(locations), id)
      ensures reply.status == 404 ==> reply.body == Error("Location not found")
      ensures reply.status != 404 ==> reply == Reply(200, Deleted("Location deleted successfully", id))
    {
      var before := locations;
      WithoutIdKeeps(locations, id);
      locations := WithoutId(locations, id);
      if ExistsById(before, id) {
        WithoutIdRemovesOne(before, FindById(before, id).value);
      } else {
        WithoutIdAbsent(before, id);
      }
      var changes := |before| - |locations|;
      if changes == 0 {
        return Reply(404, Error("Location not found"));
      }
      reply := Reply(200, Deleted("Location deleted successfully", id));
    }

    /** GET /api/locations: every row, by id descending. */
    method ListLocations() returns (reply: Reply)
      requires Valid()
      ensures reply.status == 200 && reply.body.Rows?
      ensures NewestIdFirst(reply.body.rows)
      ensures multiset(reply.body.rows) == multiset(locations)
    {
      ReverseOrdersByIdDesc(locations);
      reply := Reply(200, Rows(Reverse(locations)));
    }

    /** GET /api/locations/search: 400 without a keyword; otherwise the
        rows whose name or address contains it, by id descending. */
    method SearchLocations(keyword: Option<string>) returns (reply: Reply)
      requires Valid()
      ensures reply.status == 400 <==> keyword.None? || keyword.value == ""
      ensures reply.status == 400 ==> reply.body == Error("Keyword parameter is required")
      ensures reply.status != 400 ==>
                && reply.status == 200 && reply.body.Rows?
                && NewestIdFirst(reply.body.rows)
                && forall x :: x in reply.body.rows <==> x in locations && Matches(x, keyword.value)
    {
      if keyword.None? || keyword.value == "" {
        return Reply(400, Error("Keyword parameter is required"));
      }
      var k := keyword.value;
      var p := (x: Row) => Matches(x, k);
      var matching := Filter(locations, p);
      FilterKeepsIdsIncreasing(locations, p);
      ReverseOrdersByIdDesc(matching);
      reply := Reply(200, Rows(Reverse(matching)));
      forall x ensures x in reply.body.rows <==> x in locations && Matches(x, k) {
        assert p(x) == Matches(x, k);
      }
    }
  }
}
