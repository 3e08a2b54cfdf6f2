# Map location tracker: a verified model

This project models the core of a location-tracking CRUD application in
Dafny. A location has an id, a unique name, an address, a latitude and a
longitude, and a creation timestamp. It is stored in a SQLite `locations`
table. Ids are drawn from a counter row in an `id_generator` table. The
model covers three parts of the application:

- **The Spring backend**, as four layers:
  - the JPA entity `Location` with its table id generator (`LocationEntity`);
  - the repository's queries and the table effect of its `save` (`LocationRepository`);
  - the service, a class holding the table and the generator (`LocationService`);
  - the REST controller, whose handlers map a service outcome to a status and a body (`LocationController`).
- **The Express backend** `server.js` (`NodeServer`). It is a second state
  machine over the same rows. It has its own counter and its own rules:
  - a name is required;
  - a duplicate name gives 409;
  - search needs a keyword and also matches addresses;
  - lists are ordered by id.
- **The two Vuex stores**, TypeScript (`TsStore`) and JavaScript (`JsStore`).
  Each is a class whose mutations assign one field. Its actions wrap an API
  call in commits. The result of each API call is a parameter of the action
  (`Client` holds the shared types).

Shared modules:

- `Common` holds the row type and the small `Option` and `Outcome` wrappers.
- `Text` models the string functions the queries rely on:
  - SQL `LOWER` and `LIKE '%k%'`;
  - Java's `String.trim`;
  - the stores' blank-keyword test `!s || s.trim() === ''`.
- `Table` holds the table-level lookups and filters that both backends use.

Latitudes and longitudes are opaque values. Nothing computes with them.
Clock readings are integer parameters.

The database's behaviour is modelled as SQLite applies it:

- The NOT NULL columns are checked before UNIQUE(name).
- A NULL timestamp sorts last under `ORDER BY timestamp DESC`.
- Column lengths are declared but not enforced.

JpaRepository's `save` takes one of three paths:

- **No id.** It persists the object: it draws an id, writes the id into the
  object, and `onCreate` stamps the object.
- **An id that exists.** It merges, replacing the row, timestamp included.
- **An id that is absent.** It merges a copy under a freshly drawn id.

An id that was drawn stays drawn even when the insert then fails.

The create handler checks address and coordinates but not the name. A
null name therefore reaches the save, the NOT NULL constraint on `name`
rejects it, and the handler answers 500
(`LocationController.CreateWithoutName`).

The text of a failed save's exception comes from the persistence framework.
The model does not interpret it: it says which constraint failed, and a
caller-supplied function stands for the message.

## Model

| member | source | states |
|---|---|---|
| Text.Lower | backend-java/src/main/java/com/maptracker/repository/LocationRepository.java:25 | `LOWER` keeps the length and lower-cases each ASCII letter in place |
| Text.LowerIdempotent | backend-java/src/main/java/com/maptracker/repository/LocationRepository.java:25 | lower-casing an already lower-cased string changes nothing |
| Text.ContainsIgnoringKeywordCase | backend-java/src/main/java/com/maptracker/repository/LocationRepository.java:24-25 | a keyword and its lower-cased form match the same strings |
| Text.ContainsAt | backend-java/src/main/java/com/maptracker/repository/LocationRepository.java:25 | `x LIKE '%k%'` (without wildcards in k) holds exactly when k occurs in x at some index |
| Text.Trim | backend-java/src/main/java/com/maptracker/service/LocationService.java:36-39 | `trim()` is empty exactly for an all-blank keyword; otherwise it starts and ends with a non-blank character and is the keyword with blank prefix and suffix removed |
| Text.SkipBlanks | backend-java/src/main/java/com/maptracker/service/LocationService.java:36-39 | the front scan of `trim()` stops at the first non-blank character at or after its start, passing only blanks |
| Text.DropBlanks | backend-java/src/main/java/com/maptracker/service/LocationService.java:36-39 | the back scan of `trim()` stops just after the last non-blank character above its lower bound, passing only blanks |
| Text.TrimIdempotent | backend-java/src/main/java/com/maptracker/service/LocationService.java:39 | trimming a trimmed keyword changes nothing |
| Table.FindById | backend-java/src/main/java/com/maptracker/service/LocationService.java:30-31 | `findById` returns a row of the table with that id, and returns nothing exactly when no row has that id |
| Table.FindByIdUnique | backend/src/main/java/com/maptracker/model/Location.java:15-25 | under the primary key, `findById` of a row's id returns that very row |
| Table.CountIsDistinctIds | backend-java/src/main/java/com/maptracker/service/LocationService.java:52-53 | under the primary key, the number of rows equals the number of distinct ids |
| Table.WithoutId | backend-java/src/main/java/com/maptracker/service/LocationService.java:45 | `deleteById` (and the stores' `REMOVE_LOCATION` filter) keeps exactly the rows whose id differs, and adds none |
| Table.WithoutIdConcat | frontend-ts/src/store/index.ts:30-32 | removing an id distributes over concatenation, so the remaining rows keep their order |
| Table.WithoutIdAbsent | backend-java/src/main/java/com/maptracker/service/LocationService.java:44-48 | deleting an id no row has leaves the table as it was |
| Table.WithoutIdIdempotent | frontend-ts/src/store/index.ts:30-32 | removing the same id twice equals removing it once |
| Table.WithoutIdRemovesOne | backend-java/src/main/java/com/maptracker/service/LocationService.java:44-46 | under the primary key, deleting an existing id shrinks the table by exactly one row (`WithoutId`'s contract says which rows remain) |
| Table.AppendKeeps | nodejs-backend/server.js:138-157 | inserting a row with an id above every stored id and a new name keeps ids increasing and names unique, and `SELECT ... WHERE id = ?` then returns that row |
| Table.WithoutIdKeeps | backend-java/src/main/java/com/maptracker/service/LocationService.java:44-46 | deleting keeps ids unique, names unique and ids increasing |
| Table.Filter | nodejs-backend/server.js:97-100 | a `WHERE` keeps exactly the rows that satisfy it, each no more often than in the table |
| Table.FilterKeepsIdsIncreasing | nodejs-backend/server.js:97-100 | a `WHERE` keeps the rows in id order |
| LocationEntity.Stamped | backend/src/main/java/com/maptracker/model/Location.java:48-53 | after `onCreate` a timestamp is always set; a supplied one is kept, and otherwise it is the clock reading |
| LocationEntity.Location.constructor | backend/src/main/java/com/maptracker/model/Location.java:10-12 | the all-arguments constructor sets every field to its argument |
| LocationEntity.Location.WithCoordinates | backend/src/main/java/com/maptracker/model/Location.java:42-46 | the three-argument constructor sets address and coordinates; id, name and timestamp stay null |
| LocationEntity.Location.OnCreate | backend/src/main/java/com/maptracker/model/Location.java:48-53 | the hook stamps the clock reading only when the timestamp is null, and changes no other field |
| LocationEntity.TableGenerator.constructor | backend/src/main/java/com/maptracker/model/Location.java:17-24 | the counter row starts at 0 |
| LocationEntity.TableGenerator.Generate | backend/src/main/java/com/maptracker/model/Location.java:16-24 | with allocation size 1, each draw adds one to the counter and returns the new value |
| LocationRepository.InsertNewestFirst | backend-java/src/main/java/com/maptracker/repository/LocationRepository.java:16 | inserting into a newest-first list keeps it newest first and adds exactly that row |
| LocationRepository.SortNewestFirst | backend-java/src/main/java/com/maptracker/repository/LocationRepository.java:16 | the result is a permutation of the input, ordered by timestamp descending with NULLs last |
| LocationRepository.FindAllByOrderByTimestampDesc | backend-java/src/main/java/com/maptracker/repository/LocationRepository.java:15-16 | every row exactly once, newest first |
| LocationRepository.FindByName | backend-java/src/main/java/com/maptracker/repository/LocationRepository.java:21-22 | a row holding that name, or nothing exactly when no row holds it |
| LocationRepository.ExistsByName | backend-java/src/main/java/com/maptracker/repository/LocationRepository.java:18-19 | true exactly when some row holds that name |
| LocationRepository.FindByNameUnique | backend-java/src/main/java/com/maptracker/repository/LocationRepository.java:21-22 | under UNIQUE(name), `findByName` returns the one row holding the name |
| LocationRepository.SearchByName | backend-java/src/main/java/com/maptracker/repository/LocationRepository.java:24-26 | exactly the rows whose lower-cased name contains the lower-cased keyword, newest first, each at most as often as in the table |
| LocationRepository.SearchIgnoresKeywordCase | backend-java/src/main/java/com/maptracker/repository/LocationRepository.java:24-26 | the search is case-insensitive in its keyword: a keyword and its lower-cased form find the same rows |
| LocationRepository.Save | backend-java/src/main/java/com/maptracker/service/LocationService.java:25-26 | after the flush, `findById` of the saved id gives the saved row; a new id is appended; other rows stay |
| LocationRepository.SaveKeeps | backend/src/main/java/com/maptracker/model/Location.java:25-28 | saving keeps the primary key, and keeps names unique when no other row holds the saved name |
| LocationService.Violation | backend/src/main/java/com/maptracker/model/Location.java:27-37 | a flush succeeds exactly when name, address, latitude and longitude are non-null and no other row holds the name; a null in any of the four is a NOT NULL failure; otherwise a name held by another row is a UNIQUE failure |
| LocationService.LocationService.constructor | backend/src/main/java/com/maptracker/model/Location.java:15-25 | an empty table and a counter at 0 satisfy the table's constraints |
| LocationService.LocationService.GetAllLocations | backend-java/src/main/java/com/maptracker/service/LocationService.java:19-22 | every row exactly once, newest first |
| LocationService.LocationService.GetLocationById | backend-java/src/main/java/com/maptracker/service/LocationService.java:29-32 | the row with that id, or absent exactly when no row has it |
| LocationService.LocationService.SearchByName | backend-java/src/main/java/com/maptracker/service/LocationService.java:34-40 | a null or blank keyword gives the same list as `getAllLocations`; otherwise exactly the rows whose name contains the trimmed keyword ignoring case, newest first |
| LocationService.LocationService.GetLocationCount | backend-java/src/main/java/com/maptracker/service/LocationService.java:51-54 | the count is the number of distinct ids stored |
| LocationService.LocationService.SaveLocation | backend-java/src/main/java/com/maptracker/service/LocationService.java:24-27 | the persist, update and merge-copy paths: the id drawn or kept, the timestamp stamped or kept, on failure the exception for the broken constraint and an unchanged table, the saved row readable by its id on success, the caller's object updated only when it had no id, and the table constraints kept |
| LocationService.LocationService.DeleteLocation | backend-java/src/main/java/com/maptracker/service/LocationService.java:42-49 | returns true exactly when the id existed; afterwards no row has it; an absent id leaves the table unchanged |
| LocationService.SearchIgnoresSurroundingSpaces | backend-java/src/main/java/com/maptracker/service/LocationService.java:39 | searching for a keyword and for the keyword trimmed gives the same rows |
| LocationService.DeleteTwice | backend-java/src/main/java/com/maptracker/service/LocationService.java:43-48 | a second delete of the same id returns false |
| LocationController.GetAllLocations | backend/src/main/java/com/maptracker/controller/LocationController.java:22-34 | 200 with the service's list under `locations` exactly when it returned; otherwise 500 "Failed to fetch locations" |
| LocationController.GetLocationById | backend/src/main/java/com/maptracker/controller/LocationController.java:36-46 | 200 with the record when present, 404 with no body when absent, 500 with no body on an exception |
| LocationController.CreateLocation | backend/src/main/java/com/maptracker/controller/LocationController.java:48-74 | 400 exactly when address, latitude or longitude is null; 201 echoing the saved id, name, address and coordinates with a message; 500 with "Failed to save location: " and the exception's message |
| LocationController.SearchLocations | backend/src/main/java/com/maptracker/controller/LocationController.java:76-88 | 200 with the service's list under `locations` exactly when it returned; otherwise 500 "Failed to search locations" |
| LocationController.DeleteLocation | backend/src/main/java/com/maptracker/controller/LocationController.java:90-110 | 200 with `deletedRows` 1 exactly when deleted; 404 with no body when not; 500 with "Failed to delete location: " and the message on an exception |
| LocationController.HandleCreate | backend/src/main/java/com/maptracker/controller/LocationController.java:51-57 | a request missing a required field never reaches the service, so nothing changes; a 201 echoes a row now in the table; a 500 leaves the table; a null name gives 500 with "Failed to save location: " and the NOT NULL exception's message |
| LocationController.HandleDelete | backend/src/main/java/com/maptracker/controller/LocationController.java:93-102 | 200 exactly when the id existed, 404 otherwise, and the row is gone either way |
| LocationController.HandleGetById | backend/src/main/java/com/maptracker/controller/LocationController.java:39-41 | 200 exactly when a row has the id, with that row |
| LocationController.CreateWithoutName | backend/src/main/java/com/maptracker/controller/LocationController.java:51-72 | a request with address and coordinates but no name answers 500 with "Failed to save location: " and the NOT NULL exception's message, and adds no row |
| NodeServer.Reverse | nodejs-backend/server.js:114 | reading the table backwards keeps every row, in reverse order |
| NodeServer.ReverseOrdersByIdDesc | nodejs-backend/server.js:114 | rows stored in increasing id order, read backwards, are ordered by id descending |
| NodeServer.MatchesIgnoresKeywordCase | nodejs-backend/server.js:95-99 | the search route's `LIKE` ignores the keyword's case: a keyword and its lower-cased form match the same rows |
| NodeServer.Insert | nodejs-backend/server.js:43-51 | an INSERT succeeds exactly when both coordinates are non-null, the id is free and the name is unused; it fails with a UNIQUE error exactly when the coordinates are set but the id or the name is taken |
| NodeServer.Server.constructor | nodejs-backend/server.js:37-51 | an empty table and a counter seeded with 0 |
| NodeServer.Server.GetNextId | nodejs-backend/server.js:63-83 | adds one to `gen_value` and returns the new value |
| NodeServer.Server.CreateLocation | nodejs-backend/server.js:124-165 | 400 with nothing changed for a falsy name or address or an undefined coordinate; otherwise the counter advances; 500 for a null coordinate; 409 for a taken name; 201 exactly when the insert succeeds, with the new row appended and echoed, stamped with the clock reading; the table is unchanged unless 201 |
| NodeServer.Server.DeleteLocation | nodejs-backend/server.js:168-183 | the row with the id is removed; 404 exactly when no row changed; otherwise 200 with the message and the id |
| NodeServer.Server.ListLocations | nodejs-backend/server.js:113-121 | every row exactly once, by id descending |
| NodeServer.Server.SearchLocations | nodejs-backend/server.js:88-110 | 400 exactly when the keyword is missing or empty; otherwise exactly the rows whose name or address contains the keyword ignoring case, by id descending |
| Client.ToSend | frontend-ts/src/store/index.ts:77-86 | a body is sent exactly when coordinates, address and name are all set; the latitude is the click's second component and the longitude its first |
| Client.SavedLocation | frontend-ts/src/store/index.ts:90-97 | the new location carries the response's id, name, address and coordinates, and the client's clock reading |
| Client.SaveErrorMessageTs | frontend-ts/src/store/index.ts:110 | an Error's own message, otherwise "Error saving location" |
| Client.SaveErrorMessageJs | frontend/src/store/index.js:101 | never empty, and equal to the TypeScript store's message except for an Error with an empty message |
| Client.RemoveUndoesAdd | frontend-ts/src/store/index.ts:27-32 | removing the id of a location just prepended, whose id was not yet listed, restores the list |
| TsStore.Store.constructor | frontend-ts/src/store/index.ts:9-21 | the initial state |
| TsStore.Store.SetLocations | frontend-ts/src/store/index.ts:24-26 | replaces the list |
| TsStore.Store.AddLocation | frontend-ts/src/store/index.ts:27-29 | the location comes first and the old list follows unchanged |
| TsStore.Store.RemoveLocation | frontend-ts/src/store/index.ts:30-32 | keeps, in order, exactly the entries with another id |
| TsStore.Store.SetLoading | frontend-ts/src/store/index.ts:33-35 | sets `loading` only |
| TsStore.Store.SetSelectedCoords | frontend-ts/src/store/index.ts:36-38 | sets `selectedCoords` only |
| TsStore.Store.SetSelectedAddress | frontend-ts/src/store/index.ts:39-41 | sets `selectedAddress` only |
| TsStore.Store.SetSelectedName | frontend-ts/src/store/index.ts:42-44 | sets `selectedName` only |
| TsStore.Store.SetSaving | frontend-ts/src/store/index.ts:45-47 | sets `saving` only |
| TsStore.Store.SetNotification | frontend-ts/src/store/index.ts:48-50 | sets `notification` only |
| TsStore.Store.SetFocusedLocation | frontend-ts/src/store/index.ts:51-53 | sets `focusedLocation` only |
| TsStore.Store.SetSearchKeyword | frontend-ts/src/store/index.ts:54-56 | sets `searchKeyword` only |
| TsStore.Store.ShowNotification | frontend-ts/src/store/index.ts:158-163 | the notification is shown |
| TsStore.Store.FetchLocations | frontend-ts/src/store/index.ts:60-74 | the fetched list replaces the old one, or the list stays and "Error loading locations" is shown; `loading` ends false |
| TsStore.Store.SaveLocation | frontend-ts/src/store/index.ts:76-118 | nothing happens unless coordinates, address and name are set; the body sends latitude = coords[1] and longitude = coords[0]; on success the saved location is prepended, the selection cleared and success shown; on failure list and selection stay and the error is shown; `saving` ends false |
| TsStore.Store.DeleteLocation | frontend-ts/src/store/index.ts:120-135 | the entry leaves the list only when the API call succeeded; the matching notification is shown |
| TsStore.Store.SearchLocations | frontend-ts/src/store/index.ts:137-156 | a blank or whitespace keyword does a full fetch instead; any other keyword is searched as typed; `loading` ends false |
| TsStore.SaveThenDelete | frontend-ts/src/store/index.ts:99-123 | a successful save of a new id followed by a successful delete of that id leaves the list as it was |
| JsStore.Store.constructor | frontend/src/store/index.js:5-17 | the initial state |
| JsStore.Store.SetLocations | frontend/src/store/index.js:20-22 | replaces the list |
| JsStore.Store.AddLocation | frontend/src/store/index.js:23-25 | the location comes first and the old list follows unchanged |
| JsStore.Store.RemoveLocation | frontend/src/store/index.js:26-28 | keeps, in order, exactly the entries with another id |
| JsStore.Store.SetLoading | frontend/src/store/index.js:29-31 | sets `loading` only |
| JsStore.Store.SetSelectedCoords | frontend/src/store/index.js:32-34 | sets `selectedCoords` only |
| JsStore.Store.SetSelectedAddress | frontend/src/store/index.js:35-37 | sets `selectedAddress` only |
| JsStore.Store.SetSelectedName | frontend/src/store/index.js:38-40 | sets `selectedName` only |
| JsStore.Store.SetSaving | frontend/src/store/index.js:41-43 | sets `saving` only |
| JsStore.Store.SetNotification | frontend/src/store/index.js:44-46 | sets `notification` only |
| JsStore.Store.SetFocusedLocation | frontend/src/store/index.js:47-49 | sets `focusedLocation` only |
| JsStore.Store.SetSearchKeyword | frontend/src/store/index.js:50-52 | sets `searchKeyword` only |
| JsStore.Store.ShowNotification | frontend/src/store/index.js:147-152 | the notification is shown, with type success when none is given |
| JsStore.Store.FetchLocations | frontend/src/store/index.js:56-70 | the response's `locations` field replaces the list, or the list stays and "Error loading locations" is shown; `loading` ends false |
| JsStore.Store.SaveLocation | frontend/src/store/index.js:72-107 | as in the TypeScript store, except that an empty error message becomes "Error saving location" |
| JsStore.Store.DeleteLocation | frontend/src/store/index.js:109-124 | the entry leaves the list only when the API call succeeded; the matching notification is shown |
| JsStore.Store.SearchLocations | frontend/src/store/index.js:126-145 | a blank or whitespace keyword does a full fetch instead; otherwise the response's `locations` field replaces the list; `loading` ends false |
| Text.ContainsIgnoringCase | backend-java/src/main/java/com/maptracker/repository/LocationRepository.java:25 | `LOWER(x) LIKE LOWER('%k%')`: the lower-cased keyword occurs in the lower-cased text |
| Text.IsJsSpace | frontend-ts/src/store/index.ts:138 | the characters JavaScript's `trim` strips |
| Text.IsBlankJs | frontend-ts/src/store/index.ts:138 | the keyword is missing, empty or consists only of characters `trim` strips (the same test is at frontend/src/store/index.js:127) |
| Table.ExistsById | backend-java/src/main/java/com/maptracker/service/LocationService.java:44 | `existsById`: some row holds the id |
| LocationRepository.NewerOrSame | backend-java/src/main/java/com/maptracker/repository/LocationRepository.java:16 | the order of `ORDER BY timestamp DESC` on two rows, with a null timestamp last |
| LocationRepository.NewestFirst | backend-java/src/main/java/com/maptracker/repository/LocationRepository.java:16 | every pair of rows is in `ORDER BY timestamp DESC` order |
| LocationService.IsBlank | backend-java/src/main/java/com/maptracker/service/LocationService.java:36 | the keyword is null, or empty once trimmed |
| LocationService.LocationService.Valid | backend/src/main/java/com/maptracker/model/Location.java:15-28 | the primary key and UNIQUE(name) hold, and no row's id is above the counter |
| LocationController.MissingRequired | backend/src/main/java/com/maptracker/controller/LocationController.java:51 | the handler's check: address, latitude or longitude is null |
| NodeServer.Falsy | nodejs-backend/server.js:128 | `!x` for a string field: undefined, null or empty |
| NodeServer.Rejected | nodejs-backend/server.js:128 | the POST check: a falsy name or address, or an undefined coordinate |
| NodeServer.NewestIdFirst | nodejs-backend/server.js:114 | `ORDER BY id DESC`: ids strictly decrease along the list |
| NodeServer.Matches | nodejs-backend/server.js:97-99 | `name LIKE '%k%' OR address LIKE '%k%'`, ignoring ASCII case |
| NodeServer.Server.Valid | nodejs-backend/server.js:44-51 | ids increase along the table, names are unique, and no id is above `gen_value` |

## Left out

- Database and network I/O, the Express and Spring plumbing, logging, `printStackTrace`, CORS and shutdown are not modelled. Each service call is atomic over an in-memory table, so transactions, isolation and concurrent requests are not modelled.
- LocationService.Violation: the text of the exception a failed save throws is not modelled. It comes from Spring and Hibernate, and the model takes it as a parameter of `SaveLocation`, `HandleCreate` and `CreateWithoutName`. Which of several null columns the exception names is not modelled either.
- Faults of the database itself are not modelled: a failed connection, a failed `SELECT`, or a failed counter update. In the Spring handlers a thrown exception is an input to the controller functions. The Express routes' 500 answers for such faults, and for the read-back after an insert, are not modelled.
- Coordinates are opaque values, so `Double`/`REAL` values, numeric affinity and non-finite numbers are not modelled. Clock readings are integers, so the ISO-8601 formatting is not modelled. Rows are compared by the order of their readings.
- `LIKE` wildcards are not modelled: `%` and `_` inside a keyword match as plain characters in the model. Case is folded for ASCII letters only, as SQLite's `LOWER` and `LIKE` do.
- Column lengths (100 for `name`, 500 for `address`) are not modelled as limits, because SQLite does not enforce `VARCHAR` lengths.
- LocationService.LocationService.SaveLocation: the merge of an object whose id names no row follows Hibernate before 6.6, which inserts a copy under a fresh id. Hibernate 6.6 and later throw instead.
- Spring's own 400 answer for a search without a `keyword` parameter comes before the handler runs and is not modelled.
- NodeServer.Server.CreateLocation: JSON fields of the wrong type are not modelled, such as a numeric name or a string latitude. Fields are strings, coordinates, null or undefined.
- NodeServer.Server.DeleteLocation: the route parameter is taken as an integer. A non-numeric path segment, which matches no row, is not modelled, and neither is the `parseInt` of a partly numeric one.
- The API modules `api.ts` and `api.js` are not modelled. They are HTTP wrappers. The TypeScript store receives the list they already normalise. The JavaScript store receives the parsed `{locations: ...}` object.
- JsStore.Store.SearchLocations: a response without a `locations` field is not modelled. The Express search route answers with a bare array, for which the JavaScript store would store `undefined`.
- JsStore.Store.FetchLocations: a response without a `locations` field is not modelled. The Express backend answers with a bare array, for which the JavaScript store would store `undefined`.
- The `showNotification` timer that clears a notification after three seconds is not modelled. Neither is the interleaving of asynchronous actions: each action runs to completion with the API result given.
- The setter actions (`setSelectedCoords`, `setSelectedAddress`, `setSelectedName`, `focusLocation`, `setSearchKeyword`) each commit one mutation. They are covered by the mutations they commit. The getters return fields and are not modelled.
- The reverse-geocoding call to Nominatim is not modelled, because it is network I/O.
