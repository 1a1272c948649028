/**
 * The client of the routing provider (services/openroute.py): address search,
 * driving directions, and the two combined. The provider itself is an oracle;
 * every operation returns, beside its result, the requests it sent, in order.
 */
module OpenRoute {
  import opened Wrappers

  /** A point as the application holds it. */
  datatype Coords = Coords(lat: real, lon: real)

  /** A geocoded address: the point and the provider's label for it. */
  datatype Geocoded = Geocoded(lat: real, lon: real, formattedAddress: string) {
    function Point(): Coords { Coords(lat, lon) }
  }

  /** One feature of a search reply; `coordinates` is the provider's [lon, lat, ...]. */
  datatype Feature = Feature(coordinates: seq<real>, placeLabel: Option<string>)
  datatype SearchReply = SearchReply(features: seq<Feature>)

  /** The summary of one route: metres and seconds. */
  datatype Summary = Summary(distance: real, duration: real)
  datatype DirectionsReply = DirectionsReply(routes: seq<Summary>)

  /** The query string of an address search. */
  datatype SearchQuery = SearchQuery(text: string, country: string, size: nat)
  /** The path profile and the JSON body of a directions request. */
  datatype DirectionsQuery = DirectionsQuery(profile: string, coordinates: seq<seq<real>>)

  datatype Call = Search(search: SearchQuery) | Directions(directions: DirectionsQuery)

  /**
   * The provider. `None` stands for every failure the client catches:
   * a transport error, a timeout, a non-2xx status or an unreadable body.
   */
  datatype Provider = Provider(
    search: SearchQuery -> Option<SearchReply>,
    directions: DirectionsQuery -> Option<DirectionsReply>)

  /** A result together with the provider requests made to obtain it. */
  datatype Traced<T> = Traced(value: Option<T>, calls: seq<Call>)

  datatype Route = Route(distanceKm: real, durationMinutes: real)
  datatype Resolved = Resolved(
    distanceKm: real,
    durationMinutes: real,
    fromCoords: Geocoded,
    toCoords: Geocoded)

  const COUNTRY := "CL"
  const DRIVING_CAR := "driving-car"

  /** The search for `address`: restricted to Chile, best match only. */
  function SearchFor(address: string): SearchQuery {
    SearchQuery(address, COUNTRY, 1)
  }

  /** The directions body: each point written [lon, lat], as the provider expects. */
  function RouteBody(from: Coords, to: Coords): seq<seq<real>> {
    [[from.lon, from.lat], [to.lon, to.lat]]
  }

  /** `geocode`: the first feature of the reply, its coordinates swapped into lat/lon. */
  function Geocode(p: Provider, address: string): (r: Traced<Geocoded>)
    ensures r.calls == [Search(SearchFor(address))]
    ensures var reply := p.search(SearchFor(address));
      r.value.Some? <==>
        reply.Some? && |reply.value.features| > 0 && |reply.value.features[0].coordinates| >= 2
    ensures r.value.Some? ==>
      var f := p.search(SearchFor(address)).value.features[0];
      && r.value.value.lon == f.coordinates[0]
      && r.value.value.lat == f.coordinates[1]
      && r.value.value.formattedAddress == (if f.placeLabel.Some? then f.placeLabel.value else address)
  {
    var reply := p.search(SearchFor(address));
    var value :=
      if reply.None? || |reply.value.features| == 0 then None
      else
        var feature := reply.value.features[0];
        // a feature with fewer than two coordinates fails on indexing, which the client catches
        if |feature.coordinates| < 2 then None
        else Some(Geocoded(feature.coordinates[1], feature.coordinates[0], feature.placeLabel.GetOr(address)));
    Traced(value, [Search(SearchFor(address))])
  }

  /** `calculate_distance`: the first route's summary, in kilometres and minutes (before rounding). */
  function CalculateDistance(p: Provider, from: Coords, to: Coords, profile: string): (r: Traced<Route>)
    ensures r.calls == [Directions(DirectionsQuery(profile, RouteBody(from, to)))]
    ensures var reply := p.directions(DirectionsQuery(profile, RouteBody(from, to)));
      r.value.Some? <==> reply.Some? && |reply.value.routes| > 0
    ensures r.value.Some? ==>
      var summary := p.directions(DirectionsQuery(profile, RouteBody(from, to))).value.routes[0];
      r.value.value.distanceKm * 1000.0 == summary.distance &&
      r.value.value.durationMinutes * 60.0 == summary.duration
  {
    var query := DirectionsQuery(profile, RouteBody(from, to));
    var reply := p.directions(query);
    var value :=
      if reply.None? || |reply.value.routes| == 0 then None
      else
        var summary := reply.value.routes[0];
        Some(Route(summary.distance / 1000.0, summary.duration / 60.0));
    Traced(value, [Directions(query)])
  }

  /**
   * `calculate_from_addresses`: geocode the origin, then the destination, then
   * route between them, stopping at the first failure.
   */
  function CalculateFromAddresses(p: Provider, fromAddress: string, toAddress: string, profile: string)
    : (r: Traced<Resolved>)
    ensures |r.calls| >= 1 && r.calls[0] == Search(SearchFor(fromAddress))
    ensures Geocode(p, fromAddress).value.None? ==>
      r.value.None? && r.calls == [Search(SearchFor(fromAddress))]
    ensures Geocode(p, fromAddress).value.Some? && Geocode(p, toAddress).value.None? ==>
      r.value.None? && r.calls == [Search(SearchFor(fromAddress)), Search(SearchFor(toAddress))]
    ensures Geocode(p, fromAddress).value.Some? && Geocode(p, toAddress).value.Some? ==>
      var from := Geocode(p, fromAddress).value.value;
      var to := Geocode(p, toAddress).value.value;
      var route := CalculateDistance(p, from.Point(), to.Point(), profile);
      && r.calls == [Search(SearchFor(fromAddress)), Search(SearchFor(toAddress)),
                     Directions(DirectionsQuery(profile, RouteBody(from.Point(), to.Point())))]
      && (r.value.Some? <==> route.value.Some?)
      && (r.value.Some? ==>
            r.value.value == Resolved(route.value.value.distanceKm, route.value.value.durationMinutes, from, to))
  {
    var origin := Geocode(p, fromAddress);
    if origin.value.None? then Traced(None, origin.calls)
    else
      var destination := Geocode(p, toAddress);
      if destination.value.None? then Traced(None, origin.calls + destination.calls)
      else
        var from := origin.value.value;
        var to := destination.value.value;
        var route := CalculateDistance(p, from.Point(), to.Point(), profile);
        var value :=
          if route.value.None? then None
          else Some(Resolved(route.value.value.distanceKm, route.value.value.durationMinutes, from, to));
        Traced(value, origin.calls + destination.calls + route.calls)
  }

  /** A route request is sent only once both addresses have been geocoded. */
  lemma RoutingNeedsBothGeocodes(p: Provider, fromAddress: string, toAddress: string, profile: string, k: nat)
    requires k < |CalculateFromAddresses(p, fromAddress, toAddress, profile).calls|
    requires CalculateFromAddresses(p, fromAddress, toAddress, profile).calls[k].Directions?
    ensures Geocode(p, fromAddress).value.Some? && Geocode(p, toAddress).value.Some?
    ensures k == 2
  {
  }

  /**
   * A geocoded point goes back to the provider exactly as the provider gave it:
   * the [lon, lat] pair of the directions body is the first two coordinates of the feature.
   */
  lemma GeocodedPointRoundTrip(p: Provider, fromAddress: string, to: Coords, profile: string)
    requires Geocode(p, fromAddress).value.Some?
    ensures var g := Geocode(p, fromAddress).value.value;
      RouteBody(g.Point(), to)[0] == p.search(SearchFor(fromAddress)).value.features[0].coordinates[..2]
  {
    var f := p.search(SearchFor(fromAddress)).value.features[0];
    assert f.coordinates[..2] == [f.coordinates[0], f.coordinates[1]];
  }
}
