/** The JPA entity `Location` and the table-backed id generator that its
    `@TableGenerator` declares. */
module LocationEntity {
  import opened Common

  /** `onCreate`'s rule: a creation time is stamped only when none was given. */
  function Stamped(timestamp: Option<Timestamp>, now: Timestamp): (r: Option<Timestamp>)
    ensures r.Some?
    ensures timestamp.Some? ==> r == timestamp
    ensures timestamp.None? ==> r == Some(now)
  {
    if timestamp.None? then Some(now) else timestamp
  }

  /** The entity as Java holds it: every field is a reference that may be
      null until the row is flushed. Lombok's @Data supplies the accessors,
      so the fields are read and written directly here. */
  class Location {
    var id: Option<int>
    var name: Option<string>
    var address: Option<string>
    var latitude: Option<Coord>
    var longitude: Option<Coord>
    var timestamp: Option<Timestamp>

    /** Lombok's @AllArgsConstructor; Jackson fills a request body the same way. */
    constructor (id: Option<int>, name: Option<string>, address: Option<string>,
                 latitude: Option<Coord>, longitude: Option<Coord>, timestamp: Option<Timestamp>)
      ensures this.id == id && this.name == name && this.address == address
      ensures this.latitude == latitude && this.longitude == longitude
      ensures this.timestamp == timestamp
    {
      this.id := id;
      this.name := name;
      this.address := address;
      this.latitude := latitude;
      this.longitude := longitude;
      this.timestamp := timestamp;
    }

    /** The three-argument constructor: only address and coordinates are
        set; id, name and timestamp stay null. */
    constructor WithCoordinates(address: Option<string>, latitude: Option<Coord>, longitude: Option<Coord>)
      ensures this.address == address && this.latitude == latitude && this.longitude == longitude
      ensures id.None? && name.None? && timestamp.None?
    {
      this.address := address;
      this.latitude := latitude;
      this.longitude := longitude;
      id := None;
      name := None;
      timestamp := None;
    }

    /** The @PrePersist hook: stamps the clock reading `now` unless the
        caller already supplied a timestamp; nothing else changes. */
    method OnCreate(now: Timestamp)
      modifies this`timestamp
      ensures timestamp == Stamped(old(timestamp), now)
      ensures timestamp.Some? && (old(timestamp).Some? ==> timestamp == old(timestamp))
    {
      if timestamp.None? {
        timestamp := Some(now);
      }
    }
  }

  /** The `id_generator` row `location_id` with allocation size 1: each draw
      adds one to the stored value and hands out the new value. */
  class TableGenerator {
    var genValue: nat

    constructor ()
      ensures genValue == 0
    {
      genValue := 0;
    }

    method Generate() returns (id: int)
      modifies this
      ensures genValue == old(genValue) + 1
      ensures id == genValue
    {
      genValue := genValue + 1;
      id := genValue;
    }
  }
}
