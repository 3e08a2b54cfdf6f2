/** Value types shared by both backends and both client stores. */
module Common {

  datatype Option<+T> = None | Some(value: T) {
    function GetOr(default: T): T {
      match this
      case Some(v) => v
      case None => default
    }
  }

  /** What a call into a lower layer produced: a value, or an exception with its message. */
  datatype Outcome<+T> = Returned(value: T) | Threw(message: string)

  /** A latitude or longitude. No layer does arithmetic on them, so the model
      carries them as opaque tokens that are only copied and compared. */
  datatype Coord = Coord(raw: int)

  /** A clock reading. Only its order matters: rows are listed newest first. */
  type Timestamp = int

  /** One row of the `locations` table. Both backends declare the same columns:
      `id` is the primary key, `name` is NOT NULL UNIQUE, `address`, `latitude`
      and `longitude` are NOT NULL, and `timestamp` may be NULL. */
  datatype Row = Row(
    id: int,
    name: string,
    address: string,
    latitude: Coord,
    longitude: Coord,
    timestamp: Option<Timestamp>)
}
