/**
 * The quote engine (app.py): the service listing and the rate calculation.
 * The store is a value: the catalog is read as sequences, and the delivery
 * log is passed in and handed back with the request's batch appended.
 */
module App {
  import opened Wrappers
  import opened Models
  import opened OpenRoute
  import Decimal

  /** The rows of the service and rate tables, in the order the store yields them. */
  datatype Catalog = Catalog(services: seq<Service>, rates: seq<Rate>)

  // ----- request and response shapes -----

  /** A JSON string member: missing, explicitly null, or present. */
  datatype JsonText = Absent | Null | Text(text: string)

  /** One end of the request; a null or missing number is `None`. */
  datatype Location = Location(address: JsonText, latitude: Option<real>, longitude: Option<real>)

  /** The body's `request` object; a missing reference is `None`. */
  datatype RateRequest = RateRequest(origin: Location, destination: Location, requestReference: Option<string>)

  /** Float formatting, which is not modelled: `:.1f`, `:.0f` and `str` of a float. */
  datatype Formats = Formats(oneDecimal: real -> string, noDecimals: real -> string, plain: real -> string)

  /** The configuration the engine reads: the coverage ceiling and number formatting. */
  datatype Config = Config(maxDistanceKm: real, formats: Formats)

  datatype RateOption = RateOption(
    rateId: string,
    rateDescription: string,
    serviceName: string,
    serviceCode: string,
    totalPrice: string)

  /** The JSON body; `error` is `None` when the key is not emitted. */
  datatype RateResponse = RateResponse(referenceId: string, rates: seq<RateOption>, error: Option<string>)

  /** An HTTP reply; a `None` body is the framework's page for an unhandled exception. */
  datatype Reply = Reply(status: int, body: Option<RateResponse>)

  datatype ServiceEntry = ServiceEntry(serviceName: string, serviceCode: string)

  const DEFAULT_ORIGIN := "Origen"
  const DEFAULT_DESTINATION := "Destino"
  const ROUTE_ERROR := "No se pudo calcular la distancia"
  const MISSING_ERROR := "Faltan direcciones o coordenadas"
  const GEOCODE_ERROR := "No se pudieron geocodificar las direcciones"

  /** `location.get('address', default)`: null stays null. */
  function AddressOf(field: JsonText, default: string): Option<string> {
    match field
    case Absent => Some(default)
    case Null => None
    case Text(t) => Some(t)
  }

  predicate TruthyText(s: Option<string>) {
    s.Some? && s.value != ""
  }

  predicate TruthyNumber(x: Option<real>) {
    x.Some? && x.value != 0.0
  }

  function ReferenceOf(req: RateRequest): string {
    req.requestReference.GetOr("")
  }

  /** The coordinate branch is taken when both latitudes are truthy: a latitude of 0 is not. */
  predicate UsesCoordinates(req: RateRequest) {
    TruthyNumber(req.origin.latitude) && TruthyNumber(req.destination.latitude)
  }

  // ----- catalog queries -----

  /** The query for active services, in store order. */
  function ActiveServices(services: seq<Service>): (r: seq<Service>)
    ensures |r| <= |services|
    ensures forall s :: s in r <==> s in services && s.active
  {
    if |services| == 0 then []
    else
      var rest := ActiveServices(services[..|services| - 1]);
      var last := services[|services| - 1];
      assert services == services[..|services| - 1] + [last];
      if last.active then rest + [last] else rest
  }

  /** Splitting the last element off a concatenation. */
  lemma SplitLast<T>(a: seq<T>, b: seq<T>)
    requires |b| > 0
    ensures a + b == (a + b[..|b| - 1]) + [b[|b| - 1]]
    ensures b == b[..|b| - 1] + [b[|b| - 1]]
  {
  }

  /**
   * A filter step on a split input: if the whole kept `front + back` and one more element
   * is kept or dropped on both sides alike, the whole still keeps the front and the new back.
   */
  lemma KeepLast<T>(front: seq<T>, back: seq<T>, whole: seq<T>, whole': seq<T>, back': seq<T>, x: T, keep: bool)
    requires whole == front + back
    requires whole' == if keep then whole + [x] else whole
    requires back' == if keep then back + [x] else back
    ensures whole' == front + back'
  {
    if keep {
      assert front + (back + [x]) == (front + back) + [x];
    }
  }

  /** The active-service query preserves store order: filtering distributes over concatenation. */
  lemma ActiveServicesSnoc(services: seq<Service>, x: Service)
    ensures ActiveServices(services + [x]) == if x.active then ActiveServices(services) + [x] else ActiveServices(services)
  {
    assert (services + [x])[..|services|] == services;
  }

  lemma ActiveServicesStep(a: seq<Service>, b: seq<Service>, x: Service)
    requires ActiveServices(a + b) == ActiveServices(a) + ActiveServices(b)
    ensures ActiveServices((a + b) + [x]) == ActiveServices(a) + ActiveServices(b + [x])
  {
    ActiveServicesSnoc(a + b, x);
    ActiveServicesSnoc(b, x);
    KeepLast(ActiveServices(a), ActiveServices(b), ActiveServices(a + b), ActiveServices((a + b) + [x]), ActiveServices(b + [x]), x, x.active);
  }

  lemma {:induction false} ActiveServicesDistributes(a: seq<Service>, b: seq<Service>)
    ensures ActiveServices(a + b) == ActiveServices(a) + ActiveServices(b)
    decreases |b|
  {
    if |b| == 0 {
      assert a + b == a;
    } else {
      ActiveServicesDistributes(a, b[..|b| - 1]);
      ActiveServicesStep(a, b[..|b| - 1], b[|b| - 1]);
      SplitLast(a, b);
    }
  }

  /** Whether `r` is a row the rate query selects for the service and distance: its own, active, covering. */
  predicate Applicable(r: Rate, serviceId: int, distanceKm: real) {
    r.serviceId == serviceId && r.active && IsInRange(r, distanceKm)
  }

  /** The rate query with `.first()`: the first applicable row in store order. */
  function FindRate(rates: seq<Rate>, serviceId: int, distanceKm: real): (r: Option<Rate>)
    ensures r.None? <==> forall i :: 0 <= i < |rates| ==> !Applicable(rates[i], serviceId, distanceKm)
    ensures r.Some? ==>
      exists i :: 0 <= i < |rates| && rates[i] == r.value && Applicable(rates[i], serviceId, distanceKm) &&
        forall j :: 0 <= j < i ==> !Applicable(rates[j], serviceId, distanceKm)
  {
    if |rates| == 0 then None
    else if Applicable(rates[0], serviceId, distanceKm) then Some(rates[0])
    else
      var r := FindRate(rates[1..], serviceId, distanceKm);
      assert forall i :: 1 <= i < |rates| ==> rates[i] == rates[1..][i - 1];
      r
  }

  // ----- the service listing -----

  /** The services a loop over `services` keeps when it tests availability at `hour`. */
  function Available(services: seq<Service>, hour: Hour): (r: seq<Service>)
    ensures |r| <= |services|
    ensures forall s :: s in r <==> s in services && IsAvailableNow(s, hour)
  {
    if |services| == 0 then []
    else
      var rest := Available(services[..|services| - 1], hour);
      var last := services[|services| - 1];
      assert services == services[..|services| - 1] + [last];
      if IsAvailableNow(last, hour) then rest + [last] else rest
  }

  /** The availability filter preserves order: it distributes over concatenation. */
  lemma AvailableSnoc(services: seq<Service>, x: Service, hour: Hour)
    ensures Available(services + [x], hour) == if IsAvailableNow(x, hour) then Available(services, hour) + [x] else Available(services, hour)
  {
    assert (services + [x])[..|services|] == services;
  }

  lemma AvailableStep(a: seq<Service>, b: seq<Service>, x: Service, hour: Hour)
    requires Available(a + b, hour) == Available(a, hour) + Available(b, hour)
    ensures Available((a + b) + [x], hour) == Available(a, hour) + Available(b + [x], hour)
  {
    AvailableSnoc(a + b, x, hour);
    AvailableSnoc(b, x, hour);
    KeepLast(Available(a, hour), Available(b, hour), Available(a + b, hour), Available((a + b) + [x], hour),
      Available(b + [x], hour), x, IsAvailableNow(x, hour));
  }

  lemma {:induction false} AvailableDistributes(a: seq<Service>, b: seq<Service>, hour: Hour)
    ensures Available(a + b, hour) == Available(a, hour) + Available(b, hour)
    decreases |b|
  {
    if |b| == 0 {
      assert a + b == a;
    } else {
      AvailableDistributes(a, b[..|b| - 1], hour);
      AvailableStep(a, b[..|b| - 1], b[|b| - 1], hour);
      SplitLast(a, b);
    }
  }

  function Entry(s: Service): ServiceEntry {
    ServiceEntry(s.name, s.code)
  }

  function Entries(services: seq<Service>): seq<ServiceEntry> {
    seq(|services|, k requires 0 <= k < |services| => Entry(services[k]))
  }

  lemma EntriesSnoc(services: seq<Service>, s: Service)
    ensures Entries(services + [s]) == Entries(services) + [Entry(s)]
  {
  }

  /** One more service in the loop: its entry is appended exactly when it is open at `hour`. */
  lemma ListingStep(prefix: seq<Service>, x: Service, hour: Hour)
    ensures Entries(Available(prefix + [x], hour)) ==
      if IsAvailableNow(x, hour) then Entries(Available(prefix, hour)) + [Entry(x)] else Entries(Available(prefix, hour))
  {
    AvailableSnoc(prefix, x, hour);
    if IsAvailableNow(x, hour) {
      EntriesSnoc(Available(prefix, hour), x);
    }
  }

  /** The listing names exactly the active services open at `hour`. */
  lemma ListingIsExact(services: seq<Service>, hour: Hour, e: ServiceEntry)
    ensures e in Entries(Available(ActiveServices(services), hour)) <==>
      exists s :: s in services && IsAvailableNow(s, hour) && e == Entry(s)
  {
    var listed := Available(ActiveServices(services), hour);
    if e in Entries(listed) {
      var k :| 0 <= k < |listed| && Entries(listed)[k] == e;
      assert listed[k] in listed;
    }
    if exists s :: s in services && IsAvailableNow(s, hour) && e == Entry(s) {
      var s :| s in services && IsAvailableNow(s, hour) && e == Entry(s);
      assert s in listed;
      var k :| 0 <= k < |listed| && listed[k] == s;
      assert Entries(listed)[k] == e;
    }
  }

  /** `get_services`: the active services open at `hour`, as name/code pairs, in store order. */
  method GetServices(catalog: Catalog, hour: Hour) returns (entries: seq<ServiceEntry>)
    ensures entries == Entries(Available(ActiveServices(catalog.services), hour))
    ensures forall e :: e in entries <==>
      exists s :: s in catalog.services && IsAvailableNow(s, hour) && e == Entry(s)
  {
    var services := ActiveServices(catalog.services);
    entries := [];
    for i := 0 to |services|
      invariant entries == Entries(Available(services[..i], hour))
    {
      assert services[..i + 1] == services[..i] + [services[i]];
      ListingStep(services[..i], services[i], hour);
      if IsAvailableNow(services[i], hour) {
        entries := entries + [Entry(services[i])];
      }
    }
    assert services[..|services|] == services;
    forall e {
      ListingIsExact(catalog.services, hour, e);
    }
  }

  // ----- band matching over the service loop -----

  /** A service the loop prices: open at `hour`, with an applicable band. */
  datatype Match = Match(service: Service, rate: Rate)

  ghost predicate Qualifies(s: Service, rates: seq<Rate>, distanceKm: real, hour: Hour) {
    IsAvailableNow(s, hour) && FindRate(rates, s.id, distanceKm).Some?
  }

  /** What the service loop of the rate calculation prices over `services`, in iteration order. */
  function Matches(services: seq<Service>, rates: seq<Rate>, distanceKm: real, hour: Hour): seq<Match> {
    if |services| == 0 then []
    else
      var rest := Matches(services[..|services| - 1], rates, distanceKm, hour);
      var last := services[|services| - 1];
      if !IsAvailableNow(last, hour) then rest
      else
        match FindRate(rates, last.id, distanceKm)
        case None => rest
        case Some(rate) => rest + [Match(last, rate)]
  }

  /** `idx` lists, strictly increasing, positions in `services` that qualify, and `ms` are their matches. */
  ghost predicate IndexesMatches(idx: seq<nat>, ms: seq<Match>, services: seq<Service>, rates: seq<Rate>, distanceKm: real, hour: Hour) {
    && |idx| == |ms|
    && (forall k :: 0 <= k < |idx| ==>
          && idx[k] < |services|
          && Qualifies(services[idx[k]], rates, distanceKm, hour)
          && ms[k] == Match(services[idx[k]], FindRate(rates, services[idx[k]].id, distanceKm).value))
    && (forall k, l :: 0 <= k < l < |idx| ==> idx[k] < idx[l])
  }

  /**
   * The matches are the qualifying services, each once, in iteration order:
   * `idx` lists their positions, strictly increasing, and no qualifying position is missing.
   */
  lemma {:induction false} MatchesAreQualifyingServices(services: seq<Service>, rates: seq<Rate>, distanceKm: real, hour: Hour)
    returns (idx: seq<nat>)
    ensures IndexesMatches(idx, Matches(services, rates, distanceKm, hour), services, rates, distanceKm, hour)
    ensures forall j :: 0 <= j < |services| && Qualifies(services[j], rates, distanceKm, hour) ==> j in idx
  {
    if |services| == 0 {
      idx := [];
    } else {
      var n := |services| - 1;
      var front := services[..n];
      var prev := MatchesAreQualifyingServices(front, rates, distanceKm, hour);
      var before := Matches(front, rates, distanceKm, hour);
      assert forall j :: 0 <= j < n ==> front[j] == services[j];
      assert IndexesMatches(prev, before, services, rates, distanceKm, hour);
      if Qualifies(services[n], rates, distanceKm, hour) {
        var m := Match(services[n], FindRate(rates, services[n].id, distanceKm).value);
        assert Matches(services, rates, distanceKm, hour) == before + [m];
        idx := prev + [n];
        assert IndexesMatches(idx, before + [m], services, rates, distanceKm, hour);
      } else {
        assert Matches(services, rates, distanceKm, hour) == before;
        idx := prev;
      }
    }
  }

  /** Every priced band is a row of the service's own, active, covering the distance. */
  lemma MatchedBandsApply(services: seq<Service>, rates: seq<Rate>, distanceKm: real, hour: Hour, k: nat)
    requires k < |Matches(services, rates, distanceKm, hour)|
    ensures var m := Matches(services, rates, distanceKm, hour)[k];
      && m.service in services && IsAvailableNow(m.service, hour)
      && m.rate in rates && m.rate.serviceId == m.service.id && m.rate.active
      && m.rate.minKm <= distanceKm < m.rate.maxKm
  {
    var idx := MatchesAreQualifyingServices(services, rates, distanceKm, hour);
    var s := services[idx[k]];
    var i :| 0 <= i < |rates| && rates[i] == FindRate(rates, s.id, distanceKm).value &&
      Applicable(rates[i], s.id, distanceKm) && forall j :: 0 <= j < i ==> !Applicable(rates[j], s.id, distanceKm);
  }

  /** With unique codes (the catalog's constraint), no code is quoted twice. */
  lemma MatchedCodesDistinct(services: seq<Service>, rates: seq<Rate>, distanceKm: real, hour: Hour)
    requires forall i, j :: 0 <= i < j < |services| ==> services[i].code != services[j].code
    ensures var ms := Matches(services, rates, distanceKm, hour);
      forall k, l :: 0 <= k < l < |ms| ==> ms[k].service.code != ms[l].service.code
  {
    var idx := MatchesAreQualifyingServices(services, rates, distanceKm, hour);
  }

  /** Every quoted service is one the listing shows at that hour. */
  lemma QuotedServicesAreListed(services: seq<Service>, rates: seq<Rate>, distanceKm: real, hour: Hour, k: nat)
    requires k < |Matches(ActiveServices(services), rates, distanceKm, hour)|
    ensures Matches(ActiveServices(services), rates, distanceKm, hour)[k].service in Available(ActiveServices(services), hour)
  {
    MatchedBandsApply(ActiveServices(services), rates, distanceKm, hour, k);
  }

  // ----- resolving the request to a distance -----

  /** How far resolving the request gets: an unhandled exception, an early reply, or a located pair. */
  datatype Resolution =
    | Crashed
    | Failed(status: int, message: string)
    | Located(
        fromAddress: Option<string>,
        toAddress: Option<string>,
        fromCoords: Coords,
        toCoords: Coords,
        distanceKm: real,
        durationMinutes: real)

  datatype Resolving = Resolving(outcome: Resolution, calls: seq<Call>)

  /** The branch between caller coordinates and geocoded addresses, up to the distance. */
  function ResolveRequest(p: Provider, req: RateRequest): (r: Resolving)
    ensures UsesCoordinates(req) ==> forall k :: 0 <= k < |r.calls| ==> r.calls[k].Directions?
    ensures r.outcome.Crashed? <==>
      UsesCoordinates(req) && (req.origin.longitude.None? || req.destination.longitude.None?)
    ensures r.outcome == Failed(400, MISSING_ERROR) <==>
      !UsesCoordinates(req) &&
      !(TruthyText(AddressOf(req.origin.address, DEFAULT_ORIGIN)) &&
        TruthyText(AddressOf(req.destination.address, DEFAULT_DESTINATION)))
    ensures r.outcome.Crashed? || (r.outcome.Failed? && r.outcome.status == 400) ==> r.calls == []
    ensures r.outcome.Failed? && r.outcome.status != 400 ==>
      r.outcome == Failed(200, if UsesCoordinates(req) then ROUTE_ERROR else GEOCODE_ERROR)
    ensures r.outcome.Located? ==>
      && r.outcome.fromAddress == AddressOf(req.origin.address, DEFAULT_ORIGIN)
      && r.outcome.toAddress == AddressOf(req.destination.address, DEFAULT_DESTINATION)
      && |r.calls| > 0
      && r.calls[|r.calls| - 1] == Directions(DirectionsQuery(DRIVING_CAR, RouteBody(r.outcome.fromCoords, r.outcome.toCoords)))
    ensures r.outcome.Located? && UsesCoordinates(req) ==>
      && r.outcome.fromCoords == Coords(req.origin.latitude.value, req.origin.longitude.value)
      && r.outcome.toCoords == Coords(req.destination.latitude.value, req.destination.longitude.value)
    ensures UsesCoordinates(req) && req.origin.longitude.Some? && req.destination.longitude.Some? ==>
      var route := CalculateDistance(p, Coords(req.origin.latitude.value, req.origin.longitude.value),
                                     Coords(req.destination.latitude.value, req.destination.longitude.value), DRIVING_CAR);
      && r.calls == route.calls
      && (r.outcome.Located? <==> route.value.Some?)
      && (r.outcome.Located? ==>
            && r.outcome.distanceKm == route.value.value.distanceKm
            && r.outcome.durationMinutes == route.value.value.durationMinutes)
    ensures !UsesCoordinates(req) && r.outcome != Failed(400, MISSING_ERROR) ==>
      var resolved := CalculateFromAddresses(p, AddressOf(req.origin.address, DEFAULT_ORIGIN).value,
                                             AddressOf(req.destination.address, DEFAULT_DESTINATION).value, DRIVING_CAR);
      && r.calls == resolved.calls
      && (r.outcome.Located? <==> resolved.value.Some?)
      && (r.outcome.Located? ==>
            && r.outcome.fromCoords == resolved.value.value.fromCoords.Point()
            && r.outcome.toCoords == resolved.value.value.toCoords.Point()
            && r.outcome.distanceKm == resolved.value.value.distanceKm
            && r.outcome.durationMinutes == resolved.value.value.durationMinutes)
  {
    var fromAddress := AddressOf(req.origin.address, DEFAULT_ORIGIN);
    var toAddress := AddressOf(req.destination.address, DEFAULT_DESTINATION);
    if UsesCoordinates(req) then
      // a truthy latitude without its longitude raises KeyError, which nothing catches
      if req.origin.longitude.None? || req.destination.longitude.None? then Resolving(Crashed, [])
      else
        var fromCoords := Coords(req.origin.latitude.value, req.origin.longitude.value);
        var toCoords := Coords(req.destination.latitude.value, req.destination.longitude.value);
        var route := CalculateDistance(p, fromCoords, toCoords, DRIVING_CAR);
        match route.value
        case None => Resolving(Failed(200, ROUTE_ERROR), route.calls)
        case Some(rt) =>
          Resolving(Located(fromAddress, toAddress, fromCoords, toCoords, rt.distanceKm, rt.durationMinutes), route.calls)
    else if !TruthyText(fromAddress) || !TruthyText(toAddress) then
      Resolving(Failed(400, MISSING_ERROR), [])
    else
      var resolved := CalculateFromAddresses(p, fromAddress.value, toAddress.value, DRIVING_CAR);
      match resolved.value
      case None => Resolving(Failed(200, GEOCODE_ERROR), resolved.calls)
      case Some(rv) =>
        Resolving(
          Located(fromAddress, toAddress, rv.fromCoords.Point(), rv.toCoords.Point(), rv.distanceKm, rv.durationMinutes),
          resolved.calls)
  }

  /** A latitude of 0 is not a coordinate: the request goes to the address branch and geocodes. */
  lemma ZeroLatitudeGeocodes(p: Provider, req: RateRequest)
    requires req.origin.latitude == Some(0.0)
    requires TruthyText(AddressOf(req.origin.address, DEFAULT_ORIGIN))
    requires TruthyText(AddressOf(req.destination.address, DEFAULT_DESTINATION))
    ensures ResolveRequest(p, req).calls[0] == Search(SearchFor(AddressOf(req.origin.address, DEFAULT_ORIGIN).value))
  {
  }

  /** A missing address key is not a missing address: the default text is geocoded. */
  lemma AbsentAddressIsGeocoded(p: Provider, req: RateRequest)
    requires !UsesCoordinates(req) && req.origin.address.Absent?
    requires TruthyText(AddressOf(req.destination.address, DEFAULT_DESTINATION))
    ensures ResolveRequest(p, req).outcome != Failed(400, MISSING_ERROR)
    ensures ResolveRequest(p, req).calls[0] == Search(SearchFor(DEFAULT_ORIGIN))
  {
  }

  // ----- the rate calculation -----

  function CoverageMessage(cfg: Config, distanceKm: real): string {
    "Fuera del área de cobertura (máximo " + cfg.formats.plain(cfg.maxDistanceKm) +
    " km, solicitado " + cfg.formats.oneDecimal(distanceKm) + " km)"
  }

  /** The record of a request refused for exceeding the ceiling: no service, no price. */
  function RejectionLog(l: Resolution, reference: string): (r: DeliveryLog)
    requires l.Located?
    ensures r.serviceCode.None? && r.calculatedPrice.None?
    ensures r.distanceKm == Some(l.distanceKm) && r.durationMinutes == Some(l.durationMinutes)
    ensures r.orderReference == reference
  {
    DeliveryLog(l.fromAddress, l.toAddress,
      Some(l.fromCoords.lat), Some(l.fromCoords.lon), Some(l.toCoords.lat), Some(l.toCoords.lon),
      Some(l.distanceKm), Some(l.durationMinutes), None, None, reference)
  }

  /** The record of one priced service. */
  function SuccessLog(l: Resolution, m: Match, reference: string): (r: DeliveryLog)
    requires l.Located?
    ensures r.serviceCode == Some(m.service.code) && r.calculatedPrice == Some(m.rate.price)
    ensures r.distanceKm == Some(l.distanceKm) && r.durationMinutes == Some(l.durationMinutes)
    ensures r.orderReference == reference
  {
    DeliveryLog(l.fromAddress, l.toAddress,
      Some(l.fromCoords.lat), Some(l.fromCoords.lon), Some(l.toCoords.lat), Some(l.toCoords.lon),
      Some(l.distanceKm), Some(l.durationMinutes), Some(m.service.code), Some(m.rate.price), reference)
  }

  /** The option offered for one priced service. */
  function ToOption(l: Resolution, m: Match, formats: Formats): (r: RateOption)
    requires l.Located?
    ensures r.serviceCode == m.service.code && r.serviceName == m.service.name
    ensures Decimal.ToInt(r.totalPrice) == m.rate.price
  {
    Decimal.IntRoundTrip(m.rate.price);
    RateOption(
      m.service.code + "-" + Decimal.FromInt(m.rate.id),
      m.service.name + " - " + formats.oneDecimal(l.distanceKm) + " km (≈" + formats.noDecimals(l.durationMinutes) + " min)",
      m.service.name,
      m.service.code,
      Decimal.FromInt(m.rate.price))
  }

  /** Within one service, the option's `rate_id` names the rate row: equal ids, equal rows. */
  lemma RateIdNamesTheRate(l: Resolution, m: Match, m': Match, formats: Formats)
    requires l.Located? && m.service.code == m'.service.code
    ensures ToOption(l, m, formats).rateId == ToOption(l, m', formats).rateId <==> m.rate.id == m'.rate.id
  {
    var prefix := m.service.code + "-";
    var a, b := Decimal.FromInt(m.rate.id), Decimal.FromInt(m'.rate.id);
    assert (prefix + a)[|prefix|..] == a;
    assert (prefix + b)[|prefix|..] == b;
    Decimal.FromIntInjective(m.rate.id, m'.rate.id);
  }

  function Options(l: Resolution, ms: seq<Match>, formats: Formats): seq<RateOption>
    requires l.Located?
  {
    seq(|ms|, k requires 0 <= k < |ms| => ToOption(l, ms[k], formats))
  }

  function Logs(l: Resolution, ms: seq<Match>, reference: string): seq<DeliveryLog>
    requires l.Located?
  {
    seq(|ms|, k requires 0 <= k < |ms| => SuccessLog(l, ms[k], reference))
  }

  /**
   * The success batch mirrors the options: one record per option, in the same order,
   * carrying that option's code and the price its `total_price` spells.
   */
  lemma LogsMirrorOptions(l: Resolution, ms: seq<Match>, reference: string, formats: Formats)
    requires l.Located?
    ensures |Logs(l, ms, reference)| == |Options(l, ms, formats)|
    ensures forall k :: 0 <= k < |ms| ==>
      && Logs(l, ms, reference)[k].serviceCode == Some(Options(l, ms, formats)[k].serviceCode)
      && Logs(l, ms, reference)[k].calculatedPrice.Some?
      && Decimal.ToInt(Options(l, ms, formats)[k].totalPrice) == Logs(l, ms, reference)[k].calculatedPrice.value
  {
    forall k | 0 <= k < |ms| {
      Decimal.IntRoundTrip(ms[k].rate.price);
    }
  }

  /**
   * The loop over the active services: each one available at `hour` with an applicable
   * rate adds its option and its record, in service order.
   */
  method PriceServices(located: Resolution, services: seq<Service>, rates: seq<Rate>, hour: Hour, formats: Formats, reference: string)
    returns (options: seq<RateOption>, batch: seq<DeliveryLog>)
    requires located.Located?
    ensures options == Options(located, Matches(services, rates, located.distanceKm, hour), formats)
    ensures batch == Logs(located, Matches(services, rates, located.distanceKm, hour), reference)
  {
    var distanceKm := located.distanceKm;
    options, batch := [], [];
    for i := 0 to |services|
      invariant options == Options(located, Matches(services[..i], rates, distanceKm, hour), formats)
      invariant batch == Logs(located, Matches(services[..i], rates, distanceKm, hour), reference)
    {
      var service := services[i];
      assert services[..i + 1][..i] == services[..i];
      if !IsAvailableNow(service, hour) {
        continue;
      }
      var applicable := FindRate(rates, service.id, distanceKm);
      if applicable.Some? {
        ghost var ms := Matches(services[..i], rates, distanceKm, hour);
        var m := Match(service, applicable.value);
        assert Options(located, ms + [m], formats) == Options(located, ms, formats) + [ToOption(located, m, formats)];
        assert Logs(located, ms + [m], reference) == Logs(located, ms, reference) + [SuccessLog(located, m, reference)];
        options := options + [ToOption(located, m, formats)];
        batch := batch + [SuccessLog(located, m, reference)];
      }
    }
    assert services[..|services|] == services;
  }

  /**
   * `calculate_rates`. `log` is the delivery log before the request and `log'` after
   * its commit; `calls` are the provider requests made, in order.
   */
  method CalculateRates(cfg: Config, catalog: Catalog, p: Provider, req: RateRequest, hour: Hour, log: seq<DeliveryLog>)
    returns (reply: Reply, log': seq<DeliveryLog>, calls: seq<Call>)
    ensures calls == ResolveRequest(p, req).calls
    ensures reply.body.Some? ==> reply.body.value.referenceId == ReferenceOf(req)
    ensures reply.body.Some? && reply.body.value.error.Some? ==> reply.body.value.rates == []
    ensures reply.body.Some? && reply.body.value.error.None? ==>
      var rates := reply.body.value.rates;
      && |log'| == |log| + |rates| && log'[..|log|] == log
      && forall k :: 0 <= k < |rates| ==>
           log'[|log| + k].serviceCode == Some(rates[k].serviceCode) && log'[|log| + k].calculatedPrice.Some?
    ensures var o := ResolveRequest(p, req).outcome;
      o.Located? && o.distanceKm > cfg.maxDistanceKm ==>
        && |log'| == |log| + 1 && log'[..|log|] == log
        && log'[|log|].serviceCode.None? && log'[|log|].calculatedPrice.None?
        && log'[|log|].distanceKm == Some(o.distanceKm) && log'[|log|].durationMinutes == Some(o.durationMinutes)
    ensures reply.status == 200 || ResolveRequest(p, req).outcome.Crashed? ||
      ResolveRequest(p, req).outcome == Failed(400, MISSING_ERROR)
    ensures var o := ResolveRequest(p, req).outcome;
      o.Crashed? ==> reply == Reply(500, None) && log' == log
    ensures var o := ResolveRequest(p, req).outcome;
      o.Failed? ==> reply == Reply(o.status, Some(RateResponse(ReferenceOf(req), [], Some(o.message)))) && log' == log
    ensures var o := ResolveRequest(p, req).outcome;
      o.Located? && o.distanceKm > cfg.maxDistanceKm ==>
        && reply == Reply(200, Some(RateResponse(ReferenceOf(req), [], Some(CoverageMessage(cfg, o.distanceKm)))))
        && log' == log + [RejectionLog(o, ReferenceOf(req))]
    ensures var o := ResolveRequest(p, req).outcome;
      o.Located? && o.distanceKm <= cfg.maxDistanceKm ==>
        var ms := Matches(ActiveServices(catalog.services), catalog.rates, o.distanceKm, hour);
        && reply == Reply(200, Some(RateResponse(ReferenceOf(req), Options(o, ms, cfg.formats), None)))
        && log' == log + Logs(o, ms, ReferenceOf(req))
  {
    var reference := ReferenceOf(req);
    var resolving := ResolveRequest(p, req);
    calls := resolving.calls;
    var located := resolving.outcome;
    if located.Crashed? {
      reply, log' := Reply(500, None), log;
      return;
    }
    if located.Failed? {
      reply := Reply(located.status, Some(RateResponse(reference, [], Some(located.message))));
      log' := log;
      return;
    }
    var distanceKm := located.distanceKm;
    if distanceKm > cfg.maxDistanceKm {
      log' := log + [RejectionLog(located, reference)];
      reply := Reply(200, Some(RateResponse(reference, [], Some(CoverageMessage(cfg, distanceKm)))));
      return;
    }
    var ratesResponse, batch := PriceServices(located, ActiveServices(catalog.services), catalog.rates, hour, cfg.formats, reference);
    LogsMirrorOptions(located, Matches(ActiveServices(catalog.services), catalog.rates, distanceKm, hour), reference, cfg.formats);
    log' := log + batch;
    reply := Reply(200, Some(RateResponse(reference, ratesResponse, None)));
  }
}
