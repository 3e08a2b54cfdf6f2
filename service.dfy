/** `LocationService`: the transactional layer over the repository. Each
    call is atomic over the in-memory table. Queries read the table;
    `SaveLocation` and `DeleteLocation` change it. */
module LocationService {
  import opened Common
  import opened Text
  import opened Table
  import opened LocationEntity
  import opened LocationRepository

  /** The column constraints of the entity that a flush can break. */
  datatype Constraint = NotNull | UniqueName

  /** The constraint a flush of these column values would break, if any: a
      null in one of the four `nullable = false` columns, which is caught
      before anything is written, or a name that another row already holds.
      Which message the persistence layer then throws is not modelled. */
  function Violation(t: seq<Row>, id: int, name: Option<string>, address: Option<string>,
                     latitude: Option<Coord>, longitude: Option<Coord>): (v: Option<Constraint>)
    ensures v.None? <==>
              && name.Some? && address.Some? && latitude.Some? && longitude.Some?
              && forall x :: x in t && x.id != id ==> x.name != name.value
    ensures v == Some(NotNull) <==>
              name.None? || address.None? || latitude.None? || longitude.None?
    ensures v == Some(UniqueName) <==>
              && name.Some? && address.Some? && latitude.Some? && longitude.Some?
              && exists x :: x in t && x.id != id && x.name == name.value
  {
    if name.None? || address.None? || latitude.None? || longitude.None? then Some(NotNull)
    else if exists x :: x in t && x.id != id && x.name == name.value then Some(UniqueName)
    else None
  }

  /** A search keyword that is null, empty or only spaces. */
  predicate IsBlank(keyword: Option<string>) {
    keyword.None? || Trim(keyword.value) == []
  }

  class LocationService {
    /** The `locations` table, in storage order. */
    var table: seq<Row>
    /** The `id_generator` row the entity's @TableGenerator draws from. */
    const generator: TableGenerator

    /** Primary key, UNIQUE(name), and every id already handed out. */
    ghost predicate Valid()
      reads this, generator
    {
      && UniqueIds(table)
      && UniqueNames(table)
      && forall x :: x in table ==> x.id <= generator.genValue
    }

    constructor ()
      ensures Valid() && fresh(generator)
      ensures table == [] && generator.genValue == 0
    {
      table := [];
      generator := new TableGenerator();
    }

    /** `getAllLocations`: every row, newest first. */
    function GetAllLocations(): (rows: seq<Row>)
      reads this
      ensures NewestFirst(rows)
      ensures multiset(rows) == multiset(table)
    {
      FindAllByOrderByTimestampDesc(table)
    }

    /** `getLocationById`: the row with that id, or absent. */
    function GetLocationById(id: int): (found: Option<Row>)
      reads this
      ensures found.Some? ==> found.value in table && found.value.id == id
      ensures found.None? <==> forall x :: x in table ==> x.id != id
    {
      FindById(table, id)
    }

    /** `searchByName`: a blank keyword lists everything; any other keyword
        is trimmed and matched against names, ignoring ASCII case. */
    function SearchByName(keyword: Option<string>): (rows: seq<Row>)
      reads this
      ensures IsBlank(keyword) ==> rows == GetAllLocations()
      ensures !IsBlank(keyword) ==>
                && NewestFirst(rows)
                && multiset(rows) <= multiset(table)
                && forall x :: x in rows <==> x in table && ContainsIgnoringCase(x.name, Trim(keyword.value))
    {
      if IsBlank(keyword) then GetAllLocations()
      else LocationRepository.SearchByName(table, Trim(keyword.value))
    }

    /** `getLocationCount`: the number of locations stored. */
    function GetLocationCount(): (n: nat)
      reads this, generator
      requires Valid()
      ensures n == |Ids(table)|
    {
      CountIsDistinctIds(table);
      |table|
    }

    /** `saveLocation`, that is JpaRepository's `save`.
        - No id: the entity is persisted. A fresh id is drawn and written
          into it, `onCreate` stamps it, and the row is appended.
        - An id that names a row: the entity is merged. The row is replaced,
          its timestamp included, and nothing is drawn or stamped.
        - An id that names no row: the merge persists a copy under a fresh
          id, stamped; the caller's object is left alone.
        A flush that breaks a constraint throws and leaves the table as it
        was, but an id drawn for it stays drawn. The exception's message
        comes from the persistence framework; `describe` stands for it. */
    method SaveLocation(location: Location, now: Timestamp, describe: Constraint -> string)
      returns (result: Outcome<Row>)
      requires Valid()
      modifies this, generator, location
      ensures Valid()
      ensures var merge := old(location.id).Some? && ExistsById(old(table), old(location.id).value);
              var id := if merge then old(location.id).value else old(generator.genValue) + 1;
              var timestamp := if merge then old(location.timestamp) else Stamped(old(location.timestamp), now);
              var v := Violation(old(table), id, old(location.name), old(location.address),
                                 old(location.latitude), old(location.longitude));
              && generator.genValue == (if merge then old(generator.genValue) else id)
              && (v.Some? ==> result == Threw(describe(v.value)) && table == old(table))
              && (v.None? ==>
                    && result == Returned(Row(id, old(location.name).value, old(location.address).value,
                                              old(location.latitude).value, old(location.longitude).value, timestamp))
                    && table == Save(old(table), result.value))
      ensures result.Returned? ==> GetLocationById(result.value.id) == Some(result.value)
      ensures old(location.id).None? ==>
                && location.id == Some(generator.genValue)
                && location.timestamp == Stamped(old(location.timestamp), now)
                && location.name == old(location.name) && location.address == old(location.address)
                && location.latitude == old(location.latitude) && location.longitude == old(location.longitude)
      ensures old(location.id).Some? ==> unchanged(location)
    {
      var id: int;
      var name, address, latitude, longitude, timestamp;
      if location.id.Some? && ExistsById(table, location.id.value) {
        id := location.id.value;
        name, address, latitude, longitude, timestamp :=
          location.name, location.address, location.latitude, location.longitude, location.timestamp;
      } else if location.id.None? {
        id := generator.Generate();
        location.id := Some(id);
        location.OnCreate(now);
        name, address, latitude, longitude, timestamp :=
          location.name, location.address, location.latitude, location.longitude, location.timestamp;
      } else {
        var copy := new Location(location.id, location.name, location.address,
                                 location.latitude, location.longitude, location.timestamp);
        id := generator.Generate();
        copy.id := Some(id);
        copy.OnCreate(now);
        name, address, latitude, longitude, timestamp :=
          copy.name, copy.address, copy.latitude, copy.longitude, copy.timestamp;
      }
      var v := Violation(table, id, name, address, latitude, longitude);
      if v.Some? {
        return Threw(describe(v.value));
      }
      var row := Row(id, name.value, address.value, latitude.value, longitude.value, timestamp);
      SaveKeeps(table, row);
      table := Save(table, row);
      result := Returned(row);
    }

    /** `deleteLocation`: deletes the row when its id exists and reports
        whether it did. Afterwards no row has that id. */
    method DeleteLocation(id: int) returns (deleted: bool)
      requires Valid()
      modifies this`table
      ensures Valid()
      ensures deleted == ExistsById(old(table), id)
      ensures table == WithoutId(old(table), id)
      ensures !deleted ==> table == old(table)
      ensures !ExistsById(table, id)
    {
      WithoutIdKeeps(table, id);
      if ExistsById(table, id) {
        table := WithoutId(table, id);
        return true;
      }
      WithoutIdAbsent(table, id);
      return false;
    }
  }

  /** Searching for `k` and for `k` trimmed gives the same rows. */
  lemma SearchIgnoresSurroundingSpaces(service: LocationService, keyword: string)
    ensures service.SearchByName(Some(keyword)) == service.SearchByName(Some(Trim(keyword)))
  {
    TrimIdempotent(keyword);
  }

  /** Deleting the same id twice: the second call reports false and
      changes nothing. */
  method DeleteTwice(service: LocationService, id: int) returns (first: bool, second: bool)
    requires service.Valid()
    modifies service`table
    ensures first == ExistsById(old(service.table), id)
    ensures !second
    ensures service.table == WithoutId(old(service.table), id)
  {
    first := service.DeleteLocation(id);
    second := service.DeleteLocation(id);
  }
}
