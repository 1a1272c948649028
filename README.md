# Shipping quote engine — a Dafny model

This project models the quote engine of a last-mile delivery rate service. The engine
takes an origin and a destination, given as coordinates or as addresses. It resolves
them to a driving distance through a routing provider, refuses distances beyond a
coverage ceiling, and keeps the active services that are open at the current hour. For
each remaining service it finds the first active rate band `[min_km, max_km)` that covers
the distance, and returns one priced option per matched service. It writes one delivery-log
record per option, or a single record when the request is out of coverage.

Modules. The first four follow the source files; `Decimal` and `Wrappers` are shared helpers:

- `Models` (`models.dfy`, models.py): the `Service`, `Rate` and `DeliveryLog` records,
  `IsAvailableNow` (same-day, half-open hour window) and `IsInRange` (half-open band).
  Lemmas: how many hours a window is open, and when bands tile an interval without overlap.
- `OpenRoute` (`openroute.dfy`, services/openroute.py): `Geocode`, `CalculateDistance` and
  `CalculateFromAddresses`, written as functions over a `Provider` oracle. Each result
  carries the provider requests it sent, in order (`Traced`), so "never geocodes the
  destination" and "never routes" can be stated.
- `App` (`app.dfy`, app.py): `ResolveRequest`, the coordinate/address branch of the rate
  endpoint, up to the resolved distance. `CalculateRates` is the rest of the endpoint as a
  method: the ceiling check, then the loop over active services that accumulates options
  and log records (the method `PriceServices`), then the single commit. `GetServices` is the listing endpoint,
  also a method with a loop. The store is a value. The catalog is two sequences. The log
  is passed in and returned as `log'`, which is the old log plus the request's batch.
- `Decimal` (`decimal.dfy`): Python's `str` on an integer, used for `total_price` and
  `rate_id`, with its inverse parse.
- `SeedData` (`seed.dfy`, seed_data.py): the seeded catalog as a fixture, with scenario lemmas.
- `Wrappers` (`wrappers.dfy`): `Option`.

The provider, the clock and float formatting are parameters. `Provider` holds two total
functions, one per endpoint; `None` stands for every failure the client catches. The
current hour is an `Hour` (0–23). `Config` holds the coverage ceiling
(`MAX_DELIVERY_DISTANCE_KM`) and the three float formatters used in messages.

Three behaviours of the code a caller may not expect, which the model follows:

- A missing `address` key is not a missing address. It defaults to "Origen"/"Destino" and
  that text is geocoded (`App.AbsentAddressIsGeocoded`). Only an empty or null address
  gives 400.
- A truthy latitude whose longitude key is missing raises an uncaught `KeyError`. The model
  gives `Reply(500, None)`, not a 400.
- When the address branch fails at the routing step, the reply still says the addresses
  could not be geocoded (`GEOCODE_ERROR`).

## Model

| member | source | states |
|---|---|---|
| `Models.IsAvailableNow` | models.py:25-40 | the availability test; it is stated by the four lemmas below and by `Models.OpenHoursPerDay` |
| `Models.InactiveNeverAvailable` | models.py:27-28 | an inactive service is closed at every hour |
| `Models.UnrestrictedAlwaysAvailable` | models.py:31-32 | an active service without a start or an end hour is open at every hour |
| `Models.WindowIsHalfOpen` | models.py:40 | with both hours set, open exactly when start <= hour < end |
| `Models.WrappingWindowNeverAvailable` | models.py:40 | a window with start >= end (one that would wrap past midnight) never opens |
| `Models.OpenHoursMatchWindow` | models.py:25-40 | counting the open hours in 0..n-1 one by one gives the length of [0,n) intersected with the window |
| `Models.OpenHoursPerDay` | models.py:25-40 | a window inside the day is open end - start hours, a wrapping one none |
| `Models.IsInRange` | models.py:62-64 | the band test `min_km <= d < max_km`; it is stated by the band lemmas below |
| `Models.BandIsHalfOpen` | models.py:62-64 | a band contains its minimum (when non-empty), never its maximum, and nothing when min >= max |
| `Models.AdjacentBandsDisjoint` | models.py:62-64 | bands [a,b) and [b,c) share no distance |
| `Models.ContiguousAscending` | models.py:62-64 | in a chain of non-empty bands, each ending where the next starts, an earlier band ends before a later one starts |
| `Models.ContiguousAtMostOne` | models.py:62-64 | in such a chain a distance lies in at most one band |
| `Models.ContiguousCovers` | models.py:62-64 | such a chain covers a distance iff it lies between the first minimum and the last maximum |
| `OpenRoute.Geocode` | services/openroute.py:41-51 | one search request; a result iff the reply has a first feature with two coordinates; lon is coordinates[0], lat is coordinates[1], the label defaults to the input address |
| `OpenRoute.RouteBody` | services/openroute.py:77-82 | the directions body lists each point as [lon, lat]; `OpenRoute.GeocodedPointRoundTrip` states the round trip with the geocoded coordinates |
| `OpenRoute.GeocodedPointRoundTrip` | services/openroute.py:77-82 | a geocoded point is sent back in the directions body as the provider's own first two coordinates |
| `OpenRoute.CalculateDistance` | services/openroute.py:77-103 | one directions request whose body lists each point [lon, lat]; a result iff the reply has a route; km * 1000 is the metres and minutes * 60 the seconds of the first route |
| `OpenRoute.CalculateFromAddresses` | services/openroute.py:129-145 | origin fails: no result, only the origin search sent; destination fails: no result, no directions request; otherwise a result iff routing succeeds, carrying exactly the two geocodes |
| `OpenRoute.RoutingNeedsBothGeocodes` | services/openroute.py:129-139 | a directions request is only ever the third request, after both geocodes succeeded |
| `App.ActiveServices` | app.py:205 | the active-service query keeps exactly the active rows, and never more rows than the table has |
| `App.ActiveServicesDistributes` | app.py:205 | the query keeps store order: the active rows of a concatenation are those of the first part followed by those of the second |
| `App.FindRate` | app.py:214-219 | none iff no row is the service's, active and covering the distance; otherwise the first such row |
| `App.Available` | app.py:103-109 | keeps exactly the services open at the hour |
| `App.AvailableDistributes` | app.py:103-109 | the listing loop keeps order: the open services of a concatenation are those of the first part followed by those of the second |
| `App.ListingIsExact` | app.py:101-111 | a name/code pair is listed iff some service of the catalog with that name and code is open now |
| `App.GetServices` | app.py:96-111 | returns the name/code pairs of the active, open services in store order, and exactly those |
| `App.Matches` | app.py:208-228 | the services the rate loop prices, in loop order, each with its first applicable band; its meaning is stated by `App.MatchesAreQualifyingServices` and `App.MatchedBandsApply` |
| `App.MatchesAreQualifyingServices` | app.py:207-228 | the priced services are the positions of the open services that have an applicable band, strictly increasing, none missing, each with its first applicable band |
| `App.MatchedBandsApply` | app.py:208-219 | each priced band is an active row of that service covering min_km <= d < max_km, and the service is open |
| `App.MatchedCodesDistinct` | app.py:208-228 | with unique service codes, no code is quoted twice |
| `App.QuotedServicesAreListed` | app.py:205-211 | every quoted service is one the listing endpoint shows at that hour |
| `App.AddressOf` | app.py:131-132 | a missing address key reads as the default text, an explicit null as no address; `App.AbsentAddressIsGeocoded` states the consequence |
| `App.UsesCoordinates` | app.py:135 | the coordinate branch is taken iff both latitudes are present and non-zero; `App.ZeroLatitudeGeocodes` states the zero case |
| `App.ResolveRequest` | app.py:118-178 | coordinates are used iff both latitudes are truthy; with both longitudes present the calls, the success and the distance and duration are exactly those of routing the given points, with no geocoding; a missing longitude crashes with no request; an empty or null address gives 400 with no provider request; on the address branch the calls, the success, both points, the distance and the duration are exactly those of `CalculateFromAddresses`; failures give 200 with the matching message; a located pair carries the addresses as read |
| `App.ZeroLatitudeGeocodes` | app.py:135 | a latitude of 0 takes the address branch, which starts by geocoding the origin |
| `App.AbsentAddressIsGeocoded` | app.py:131-132 | a missing address key becomes "Origen", which is geocoded rather than refused |
| `App.CoverageMessage` | app.py:201 | the out-of-coverage message, built from the formatted ceiling and the formatted requested distance |
| `App.RejectionLog` | app.py:184-194 | the record of a refused request has no service code and no price, and carries the distance, the duration and the reference |
| `App.SuccessLog` | app.py:231-243 | the record of a priced service carries its code and its band's price, the distance, the duration and the reference |
| `App.ToOption` | app.py:222-228 | an option's service code and name are the service's, and its total_price reads back as the band's price |
| `App.RateIdNamesTheRate` | app.py:223 | for one service, two options have the same rate_id iff they quote the same rate row |
| `App.PriceServices` | app.py:206-244 | the loop over the active services yields exactly the options and the records of the matched services, in service order |
| `App.LogsMirrorOptions` | app.py:221-244 | one success record per option, in order; the i-th record's code and price are the i-th option's code and the number its total_price spells |
| `App.CalculateRates` | app.py:113-253 | the reference is always echoed; every error reply has no rates; resolution failures and 400 leave the log unchanged; distance > ceiling appends exactly one record with distance and duration set and no code or price; otherwise (distance == ceiling included) the options are those of the matches, and exactly one record per option is appended in one batch, carrying that option's code |
| `Decimal.FromInt` | app.py:223-227 | the text of an integer is non-empty and starts with a minus sign iff the integer is negative |
| `Decimal.FromNat` | app.py:227 | the decimal text of a number is non-empty digits with no leading zero |
| `Decimal.IntRoundTrip` | app.py:227 | the text of a price reads back as that price |
| `Decimal.FromIntInjective` | app.py:223 | two ids print the same iff they are equal |
| `SeedData.EnvioHoyWindow` | seed_data.py:15-21 | the 0–18 service is open at hours 0 and 17, closed at 18, eighteen hours a day; the unrestricted one is open 24 |
| `SeedData.SeedBandsTile` | seed_data.py:27-33 | the seeded bands tile [0,7) with no gap and no overlap |
| `SeedData.SeedNothingAtCeiling` | app.py:182 | at exactly 7 km the ceiling test `distance > 7` is false, and no active seeded band matches, so there are no options and no success records; `App.CalculateRates` states that such a distance gets a 200 reply with no error and appends just those records |
| `SeedData.SeedTwoAndAHalfKm` | seed_data.py:49-54 | at 2.5 km both services are quoted at "3500" before 18:00, and only the unrestricted one from 18:00 |

## Left out

- HTTP transport, JSON decoding, `raise_for_status`, timeouts and the logger: the provider is an
  oracle. Any failure is `None`, and a malformed payload counts as a failure. A feature
  without `geometry` or `properties` is not modelled; a feature's label is `Option<string>`.
- `OpenRoute.Geocode`: a feature whose `label` is present but `null` makes the source return
  `None` as the formatted address, while the model returns the input address. Nothing
  downstream of the geocode reads the label.
- `OpenRoute.CalculateDistance`: returns the unrounded conversions. `round(x, 2)` and
  `round(x, 1)` are floating point and are not modelled, so the ceiling is compared with the
  unrounded distance.
- Formatting of floats (`:.1f`, `:.0f`, `str` of the ceiling) is a parameter (`Formats`), not
  modelled text.
- The clock and timezone: the current hour is an input. The log record's timestamp and row
  id, both filled in by the store, are not modelled.
- The store: queries become sequence filters. Query row order is taken to be sequence order,
  which `.first()` and `.all()` leave unspecified. The session and commit are the single
  append `log' == log + batch`; store failures are not modelled.
- JSON values of the wrong type, a `null` request reference or longitude, and a `request` or
  `from`/`to` member that is not an object are not modelled.
- The admin screens, the `index`, `health` and test endpoints, and config.py. Of the
  configuration only the ceiling is read, as the `maxDistanceKm` part of `Config`; the other
  part of `Config` is the float formatting above.
- Seed row ids are assigned by the store; the fixture's ids are illustrative.
