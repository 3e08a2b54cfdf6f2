/** The TypeScript Vuex store: the state, its mutations, and the actions
    that wrap an API call in commits. Each action takes the API call's
    result as a parameter; it is consulted only where the action makes the
    call. */
module TsStore {
  import opened Common
  import opened Text
  import opened Table
  import opened Client

  class Store {
    var locations: seq<Row>
    var loading: bool
    var selectedCoords: Option<LonLat>
    var selectedAddress: Option<string>
    var selectedName: Option<string>
    var saving: bool
    var notification: Option<Notification>
    var focusedLocation: Option<Row>
    var searchKeyword: string

    /** The initial state. */
    constructor ()
      ensures locations == [] && !loading && !saving
      ensures selectedCoords.None? && selectedAddress.None? && selectedName.None?
      ensures notification.None? && focusedLocation.None? && searchKeyword == ""
    {
      locations := [];
      loading := false;
      selectedCoords := None;
      selectedAddress := None;
      selectedName := None;
      saving := false;
      notification := None;
      focusedLocation := None;
      searchKeyword := "";
    }

    // Mutations: each replaces one field and touches nothing else.

    method SetLocations(locations: seq<Row>)
      modifies this`locations
      ensures this.locations == locations
    {
      this.locations := locations;
    }

    /** ADD_LOCATION: `unshift`, so the new location comes first and the
        old list follows in its order. */
    method AddLocation(location: Row)
      modifies this`locations
      ensures locations == [location] + old(locations)
    {
      locations := [location] + locations;
    }

    /** REMOVE_LOCATION: keeps, in order, every location whose id differs. */
    method RemoveLocation(id: int)
      modifies this`locations
      ensures locations == WithoutId(old(locations), id)
      ensures !ExistsById(locations, id)
    {
      locations := WithoutId(locations, id);
    }

    method SetLoading(loading: bool)
      modifies this`loading
      ensures this.loading == loading
    {
      this.loading := loading;
    }

    method SetSelectedCoords(coords: Option<LonLat>)
      modifies this`selectedCoords
      ensures selectedCoords == coords
    {
      selectedCoords := coords;
    }

    method SetSelectedAddress(address: Option<string>)
      modifies this`selectedAddress
      ensures selectedAddress == address
    {
      selectedAddress := address;
    }

    method SetSelectedName(name: Option<string>)
      modifies this`selectedName
      ensures selectedName == name
    {
      selectedName := name;
    }

    method SetSaving(saving: bool)
      modifies this`saving
      ensures this.saving == saving
    {
      this.saving := saving;
    }

    method SetNotification(notification: Option<Notification>)
      modifies this`notification
      ensures this.notification == notification
    {
      this.notification := notification;
    }

    method SetFocusedLocation(location: Option<Row>)
      modifies this`focusedLocation
      ensures focusedLocation == location
    {
      focusedLocation := location;
    }

    method SetSearchKeyword(keyword: string)
      modifies this`searchKeyword
      ensures searchKeyword == keyword
    {
      searchKeyword := keyword;
    }

    // Actions.

    /** showNotification: commits the notification. The timer that clears
        it three seconds later is not modelled. */
    method ShowNotification(n: Notification)
      modifies this`notification
      ensures notification == Some(n)
    {
      SetNotification(Some(n));
    }

    /** fetchLocations: the list replaces `locations`, or an error
        notification is shown and the list stays; `loading` ends false. */
    method FetchLocations(response: ApiResult<seq<Row>>)
      modifies this`loading, this`locations, this`notification
      ensures !loading
      ensures response.Ok? ==> locations == response.data && notification == old(notification)
      ensures response.Failed? ==>
                && locations == old(locations)
                && notification == Some(Notification("Error loading locations", Error))
    {
      SetLoading(true);
      match response {
      case Ok(data) =>
        SetLocations(data);
      case Failed(_) =>
        ShowNotification(Notification("Error loading locations", Error));
      }
      SetLoading(false);
    }

    /** saveLocation. Returns the body it posts, or None when the guard
        returned early, in which case nothing changes. On success the saved
        location is prepended and the selection cleared; on failure the list
        and the selection stay. Either way `saving` ends false. */
    method SaveLocation(response: ApiResult<SaveResponse>, now: Timestamp) returns (sent: Option<LocationInput>)
      modifies this`saving, this`locations, this`selectedCoords, this`selectedAddress,
               this`selectedName, this`notification
      ensures sent == ToSend(old(selectedCoords), old(selectedAddress), old(selectedName))
      ensures sent.None? ==> unchanged(this)
      ensures sent.Some? ==> !saving
      ensures sent.Some? && response.Ok? ==>
                && locations == [SavedLocation(response.data, now)] + old(locations)
                && selectedCoords.None? && selectedAddress.None? && selectedName.None?
                && notification == Some(Notification("Location saved successfully!", Success))
      ensures sent.Some? && response.Failed? ==>
                && locations == old(locations)
                && selectedCoords == old(selectedCoords)
                && selectedAddress == old(selectedAddress)
                && selectedName == old(selectedName)
                && notification == Some(Notification(SaveErrorMessageTs(response.thrown), Error))
    {
      sent := ToSend(selectedCoords, selectedAddress, selectedName);
      if sent.None? {
        return;
      }
      SetSaving(true);
      match response {
      case Ok(data) =>
        AddLocation(SavedLocation(data, now));
        SetSelectedCoords(None);
        SetSelectedAddress(None);
        SetSelectedName(None);
        ShowNotification(Notification("Location saved successfully!", Success));
      case Failed(thrown) =>
        ShowNotification(Notification(SaveErrorMessageTs(thrown), Error));
      }
      SetSaving(false);
    }

    /** deleteLocation: the location leaves the list only once the API call
        has succeeded. */
    method DeleteLocation(id: int, response: ApiResult<()>)
      modifies this`locations, this`notification
      ensures response.Ok? ==>
                && locations == WithoutId(old(locations), id)
                && notification == Some(Notification("Location deleted", Success))
      ensures response.Failed? ==>
                && locations == old(locations)
                && notification == Some(Notification("Error deleting location", Error))
    {
      match response {
      case Ok(_) =>
        RemoveLocation(id);
        ShowNotification(Notification("Location deleted", Success));
      case Failed(_) =>
        ShowNotification(Notification("Error deleting location", Error));
      }
    }

    /** searchLocations: a blank keyword falls back to fetchLocations (and
        its result, `listed`); any other keyword is searched for as it is,
        untrimmed. `loading` ends false either way. */
    method SearchLocations(listed: ApiResult<seq<Row>>, searched: ApiResult<seq<Row>>) returns (call: ApiCall)
      modifies this`loading, this`locations, this`notification
      ensures call == if IsBlankJs(searchKeyword) then ListAll else Search(searchKeyword)
      ensures !loading
      ensures var response := if call.ListAll? then listed else searched;
              && (response.Ok? ==> locations == response.data && notification == old(notification))
              && (response.Failed? ==> locations == old(locations))
      ensures call.ListAll? && listed.Failed? ==>
                notification == Some(Notification("Error loading locations", Error))
      ensures call.Search? && searched.Failed? ==>
                notification == Some(Notification("Error searching locations", Error))
    {
      if IsBlankJs(searchKeyword) {
        FetchLocations(listed);
        return ListAll;
      }
      call := Search(searchKeyword);
      SetLoading(true);
      match searched {
      case Ok(data) =>
        SetLocations(data);
      case Failed(_) =>
        ShowNotification(Notification("Error searching locations", Error));
      }
      SetLoading(false);
    }
  }

  /** A save that succeeds with an id new to the list, followed by a
      successful delete of that id, leaves the list as it was. */
  method SaveThenDelete(store: Store, data: SaveResponse, now: Timestamp)
    requires ToSend(store.selectedCoords, store.selectedAddress, store.selectedName).Some?
    requires !ExistsById(store.locations, data.id)
    modifies store
    ensures store.locations == old(store.locations)
    ensures !store.saving
    ensures store.notification == Some(Notification("Location deleted", Success))
  {
    var before := store.locations;
    var _ := store.SaveLocation(Ok(data), now);
    RemoveUndoesAdd(SavedLocation(data, now), before);
    store.DeleteLocation(data.id, Ok(()));
  }
}
