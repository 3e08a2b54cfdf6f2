/** Types and rules shared by the two copies of the Vuex store (the
    TypeScript one and the JavaScript one). A location in the client is the
    same record the backends store; its timestamp is the clock reading the
    client stamps it with. */
module Client {
  import opened Common
  import opened Table

  datatype NotificationType = Success | Error

  datatype Notification = Notification(message: string, kind: NotificationType)

  /** A map click, as `[longitude, latitude]`. */
  type LonLat = (Coord, Coord)

  /** The body sent to POST /api/locations. */
  datatype LocationInput = LocationInput(name: string, address: string, latitude: Coord, longitude: Coord)

  /** The fields the client reads back from a successful POST. */
  datatype SaveResponse = SaveResponse(id: int, name: string, address: string, latitude: Coord, longitude: Coord)

  /** What an `await` on the API produced: the parsed data, or the value the
      call threw. The API layer throws `Error` objects; a non-Error value
      stands for anything else a rejected promise may carry. */
  datatype Thrown = ErrorObject(message: string) | NonError
  datatype ApiResult<+T> = Ok(data: T) | Failed(thrown: Thrown)

  /** Which endpoint a search action ended up calling. */
  datatype ApiCall = ListAll | Search(keyword: string)

  /** JavaScript truthiness of a nullable string. */
  predicate Truthy(s: Option<string>) {
    s.Some? && s.value != ""
  }

  /** The body `saveLocation` sends, or None when its guard returns early:
      coordinates, address and name must all be set. The click is stored
      as [lon, lat], so the latitude is its second component. */
  function ToSend(coords: Option<LonLat>, address: Option<string>, name: Option<string>): (input: Option<LocationInput>)
    ensures input.Some? <==> coords.Some? && Truthy(address) && Truthy(name)
    ensures input.Some? ==>
              && input.value.name == name.value && input.value.address == address.value
              && input.value.latitude == coords.value.1 && input.value.longitude == coords.value.0
  {
    if coords.None? || !Truthy(address) || !Truthy(name) then None
    else Some(LocationInput(name.value, address.value, coords.value.1, coords.value.0))
  }

  /** The location a successful save prepends: the response's fields, stamped
      with the client's clock. */
  function SavedLocation(data: SaveResponse, now: Timestamp): (x: Row)
    ensures x.id == data.id && x.name == data.name && x.address == data.address
    ensures x.latitude == data.latitude && x.longitude == data.longitude
    ensures x.timestamp == Some(now)
  {
    Row(data.id, data.name, data.address, data.latitude, data.longitude, Some(now))
  }

  /** The TypeScript store's message for a failed save: an Error's own
      message, or a fixed text for anything else. */
  function SaveErrorMessageTs(thrown: Thrown): (m: string)
    ensures thrown.ErrorObject? ==> m == thrown.message
    ensures thrown.NonError? ==> m == "Error saving location"
  {
    match thrown
    case ErrorObject(message) => message
    case NonError => "Error saving location"
  }

  /** The JavaScript store's message: `error.message || 'Error saving location'`.
      It is never empty, and it agrees with the TypeScript store's except
      for an Error whose message is empty. */
  function SaveErrorMessageJs(thrown: Thrown): (m: string)
    ensures m != ""
    ensures m == SaveErrorMessageTs(thrown) <==> thrown != ErrorObject("")
  {
    if thrown.ErrorObject? && thrown.message != "" then thrown.message
    else "Error saving location"
  }

  /** REMOVE_LOCATION undoes ADD_LOCATION when the added id was not in the
      list already. */
  lemma RemoveUndoesAdd(x: Row, s: seq<Row>)
    requires !ExistsById(s, x.id)
    ensures WithoutId([x] + s, x.id) == s
  {
    WithoutIdConcat([x], s, x.id);
    WithoutIdAbsent(s, x.id);
    assert WithoutId([x], x.id) == [];
  }
}
