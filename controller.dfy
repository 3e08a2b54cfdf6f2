/** `LocationController`: the five REST handlers under `/api/locations`.
    Each handler turns what the service returned, or the exception it
    threw, into a status code and a JSON body. */
module LocationController {
  import opened Common
  import opened Table
  import opened LocationEntity
  import opened LocationService

  /** The JSON bodies the handlers send. */
  datatype Body =
    | NoBody
    | LocationList(locations: seq<Row>)
    | LocationBody(location: Row)
    | SavedBody(id: int, name: string, address: string, latitude: Coord, longitude: Coord, message: string)
    | DeletedBody(message: string, deletedRows: int)
    | ErrorBody(error: string)

  datatype Response = Response(status: int, body: Body)

  const SaveFailurePrefix := "Failed to save location: "
  const DeleteFailurePrefix := "Failed to delete location: "

  /** GET /api/locations: the list wrapped under `locations`. */
  function GetAllLocations(outcome: Outcome<seq<Row>>): (r: Response)
    ensures r.status == 200 <==> outcome.Returned?
    ensures outcome.Returned? ==> r.body == LocationList(outcome.value)
    ensures outcome.Threw? ==> r == Response(500, ErrorBody("Failed to fetch locations"))
  {
    match outcome
    case Returned(locations) => Response(200, LocationList(locations))
    case Threw(_) => Response(500, ErrorBody("Failed to fetch locations"))
  }

  /** GET /api/locations/{id}: the record, or 404 with no body. */
  function GetLocationById(outcome: Outcome<Option<Row>>): (r: Response)
    ensures r.status == 200 <==> outcome.Returned? && outcome.value.Some?
    ensures r.status == 200 ==> r.body == LocationBody(outcome.value.value)
    ensures r.status == 404 <==> outcome == Returned(None)
    ensures r.status == 500 <==> outcome.Threw?
    ensures r.status != 200 ==> r.body == NoBody
  {
    match outcome
    case Returned(Some(location)) => Response(200, LocationBody(location))
    case Returned(None) => Response(404, NoBody)
    case Threw(_) => Response(500, NoBody)
  }

  /** The create handler checks these three fields and no others. */
  predicate MissingRequired(address: Option<string>, latitude: Option<Coord>, longitude: Option<Coord>) {
    address.None? || latitude.None? || longitude.None?
  }

  /** POST /api/locations. `saved` is what the service returned or threw;
      it is consulted only when the required fields are present, because
      otherwise the service is never called. */
  function CreateLocation(address: Option<string>, latitude: Option<Coord>, longitude: Option<Coord>,
                          saved: Outcome<Row>): (r: Response)
    ensures r.status == 400 <==> MissingRequired(address, latitude, longitude)
    ensures r.status == 400 ==>
              r.body == ErrorBody("Missing required fields: address, latitude, or longitude")
    ensures r.status == 201 <==> !MissingRequired(address, latitude, longitude) && saved.Returned?
    ensures r.status == 201 ==>
              var s := saved.value;
              r.body == SavedBody(s.id, s.name, s.address, s.latitude, s.longitude, "Location saved successfully")
    ensures r.status == 500 <==> !MissingRequired(address, latitude, longitude) && saved.Threw?
    ensures r.status == 500 ==>
              r.body.ErrorBody? && r.body.error == SaveFailurePrefix + saved.message
  {
    if MissingRequired(address, latitude, longitude) then
      Response(400, ErrorBody("Missing required fields: address, latitude, or longitude"))
    else
      match saved
      case Returned(s) =>
        Response(201, SavedBody(s.id, s.name, s.address, s.latitude, s.longitude, "Location saved successfully"))
      case Threw(message) =>
        Response(500, ErrorBody(SaveFailurePrefix + message))
  }

  /** GET /api/locations/search: the service's rows wrapped under `locations`. */
  function SearchLocations(outcome: Outcome<seq<Row>>): (r: Response)
    ensures r.status == 200 <==> outcome.Returned?
    ensures outcome.Returned? ==> r.body == LocationList(outcome.value)
    ensures outcome.Threw? ==> r == Response(500, ErrorBody("Failed to search locations"))
  {
    match outcome
    case Returned(locations) => Response(200, LocationList(locations))
    case Threw(_) => Response(500, ErrorBody("Failed to search locations"))
  }

  /** DELETE /api/locations/{id}. When nothing was deleted the handler
      builds an error map but answers 404 with no body. */
  function DeleteLocation(outcome: Outcome<bool>): (r: Response)
    ensures r.status == 200 <==> outcome == Returned(true)
    ensures r.status == 200 ==> r.body == DeletedBody("Location deleted successfully", 1)
    ensures r.status == 404 <==> outcome == Returned(false)
    ensures r.status == 404 ==> r.body == NoBody
    ensures outcome.Threw? ==> r == Response(500, ErrorBody(DeleteFailurePrefix + outcome.message))
  {
    match outcome
    case Returned(true) => Response(200, DeletedBody("Location deleted successfully", 1))
    case Returned(false) => Response(404, NoBody)
    case Threw(message) => Response(500, ErrorBody(DeleteFailurePrefix + message))
  }

  /** The create handler wired to the service: a request missing address,
      latitude or longitude never reaches it, so nothing changes; a 201
      echoes a row that is now in the table. */
  method HandleCreate(service: LocationService, request: Location, now: Timestamp,
                      describe: Constraint -> string) returns (r: Response)
    requires service.Valid()
    modifies service, service.generator, request
    ensures service.Valid()
    ensures MissingRequired(old(request.address), old(request.latitude), old(request.longitude)) ==>
              && r.status == 400
              && unchanged(service, service.generator, request)
    ensures r.status == 201 ==>
              && r.body.SavedBody?
              && var found := service.GetLocationById(r.body.id);
              && found.Some?
              && found.value.name == r.body.name && found.value.address == r.body.address
              && found.value.latitude == r.body.latitude && found.value.longitude == r.body.longitude
    ensures r.status == 500 ==> service.table == old(service.table)
    ensures !MissingRequired(old(request.address), old(request.latitude), old(request.longitude))
            && old(request.name).None? ==>
              r == Response(500, ErrorBody(SaveFailurePrefix + describe(NotNull)))
  {
    if MissingRequired(request.address, request.latitude, request.longitude) {
      return CreateLocation(request.address, request.latitude, request.longitude, Threw(""));
    }
    var address, latitude, longitude := request.address, request.latitude, request.longitude;
    var saved := service.SaveLocation(request, now, describe);
    r := CreateLocation(address, latitude, longitude, saved);
  }

  /** The delete handler wired to the service: 200 exactly when the id
      existed, and the row is gone either way. */
  method HandleDelete(service: LocationService, id: int) returns (r: Response)
    requires service.Valid()
    modifies service`table
    ensures service.Valid()
    ensures r.status == 200 <==> ExistsById(old(service.table), id)
    ensures r.status == 404 <==> !ExistsById(old(service.table), id)
    ensures service.table == WithoutId(old(service.table), id)
  {
    var deleted := service.DeleteLocation(id);
    r := DeleteLocation(Returned(deleted));
  }

  /** The get-by-id handler wired to the service: 200 exactly when a row
      has that id. */
  function HandleGetById(service: LocationService, id: int): (r: Response)
    reads service
    ensures r.status == 200 <==> ExistsById(service.table, id)
    ensures r.status == 200 ==> r.body.LocationBody? && r.body.location.id == id && r.body.location in service.table
  {
    GetLocationById(Returned(service.GetLocationById(id)))
  }

  /** A request built with the three-argument constructor has no name. It
      passes the handler's check, but the NOT NULL constraint on `name`
      rejects it, so the answer is 500 and no row is added. */
  method CreateWithoutName(service: LocationService, address: string, latitude: Coord, longitude: Coord,
                           now: Timestamp, describe: Constraint -> string) returns (r: Response)
    requires service.Valid()
    modifies service, service.generator
    ensures r == Response(500, ErrorBody(SaveFailurePrefix + describe(NotNull)))
    ensures service.table == old(service.table)
  {
    var request := new Location.WithCoordinates(Some(address), Some(latitude), Some(longitude));
    r := HandleCreate(service, request, now, describe);
  }
}
