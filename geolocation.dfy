/** The page's wrapper around the browser's position provider, with the
    provider's answer given as an input. */
module Geolocation {
  import opened Wrappers
  import opened Registry

  /** Why a position could not be had: the browser has no provider, or the
      provider reported one of its three error codes. */
  datatype GeoError = Unsupported | PermissionDenied | PositionUnavailable | Timeout

  /** A raw reading of the provider. */
  datatype Coordinates = Coordinates(latitude: real, longitude: real)

  /** `getCurrentLocation()`: `supported` tells whether the browser has a
      provider, `reading` is what the provider answered, `now` is the clock
      when it answered and `fixedText` the coordinates rendered to four
      decimals, which becomes the sample's address. */
  function GetCurrentLocation(supported: bool, reading: Result<Coordinates, GeoError>, now: int,
                              fixedText: string): (r: Result<LocationData, GeoError>)
    ensures r.Success? <==> supported && reading.Success?
    ensures !supported ==> r == Failure(Unsupported)
    ensures supported && reading.Failure? ==> r == Failure(reading.error)
    ensures r.Success? ==>
      && r.value.latitude == reading.value.latitude
      && r.value.longitude == reading.value.longitude
      && r.value.timestamp == now
      && r.value.address == Some(fixedText)
  {
    if !supported then Failure(Unsupported)
    else match reading
      case Failure(e) => Failure(e)
      case Success(c) => Success(LocationData(c.latitude, c.longitude, now, Some(fixedText)))
  }
}
