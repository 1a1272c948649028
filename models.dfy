/**
 * The catalog records of the shipping system and the two predicates the
 * quote engine asks of them: whether a service is open at an hour, and
 * whether a distance falls in a rate band.
 */
module Models {
  import opened Wrappers

  /** An hour of the day on the operating clock, as the clock reports it. */
  type Hour = h: int | 0 <= h < 24

  /** A delivery product. Absent hours mean "no restriction". */
  datatype Service = Service(
    id: int,
    name: string,
    code: string,
    description: Option<string>,
    active: bool,
    startHour: Option<int>,
    endHour: Option<int>)

  /** A priced distance band [minKm, maxKm) owned by the service `serviceId`. */
  datatype Rate = Rate(
    id: int,
    serviceId: int,
    minKm: real,
    maxKm: real,
    price: int,
    active: bool)

  /**
   * One audit record of a quote attempt. The row id and the creation
   * timestamp, both filled in by the store, are not part of the record here.
   */
  datatype DeliveryLog = DeliveryLog(
    fromAddress: Option<string>,
    toAddress: Option<string>,
    fromLat: Option<real>,
    fromLon: Option<real>,
    toLat: Option<real>,
    toLon: Option<real>,
    distanceKm: Option<real>,
    durationMinutes: Option<real>,
    serviceCode: Option<string>,
    calculatedPrice: Option<int>,
    orderReference: string)

  /** Whether `s` takes orders at `hour`: a same-day, half-open window. */
  predicate IsAvailableNow(s: Service, hour: Hour) {
    if !s.active then false
    else if s.startHour.None? || s.endHour.None? then true
    else s.startHour.value <= hour < s.endHour.value
  }

  /** Whether `distanceKm` lies in the half-open band of `r`. */
  predicate IsInRange(r: Rate, distanceKm: real) {
    r.minKm <= distanceKm < r.maxKm
  }

  // ----- availability -----

  lemma InactiveNeverAvailable(s: Service)
    requires !s.active
    ensures forall h: Hour :: !IsAvailableNow(s, h)
  {
  }

  lemma UnrestrictedAlwaysAvailable(s: Service)
    requires s.active && (s.startHour.None? || s.endHour.None?)
    ensures forall h: Hour :: IsAvailableNow(s, h)
  {
  }

  lemma WindowIsHalfOpen(s: Service, h: Hour)
    requires s.active && s.startHour.Some? && s.endHour.Some?
    ensures IsAvailableNow(s, h) <==> s.startHour.value <= h < s.endHour.value
  {
  }

  /** A window that would wrap past midnight never opens. */
  lemma WrappingWindowNeverAvailable(s: Service)
    requires s.startHour.Some? && s.endHour.Some? && s.startHour.value >= s.endHour.value
    ensures forall h: Hour :: !IsAvailableNow(s, h)
  {
  }

  /** How many of the hours 0 .. n-1 the service is open. */
  function OpenHoursBefore(s: Service, n: nat): nat
    requires n <= 24
  {
    if n == 0 then 0
    else OpenHoursBefore(s, n - 1) + (if IsAvailableNow(s, n - 1) then 1 else 0)
  }

  function Min(a: int, b: int): int { if a <= b then a else b }
  function Max(a: int, b: int): int { if a <= b then b else a }

  /** The length of [0, n) intersected with the service's window, worked out directly. */
  function WindowLengthBefore(s: Service, n: nat): int {
    if !s.active then 0
    else if s.startHour.None? || s.endHour.None? then n
    else Max(0, Min(s.endHour.value, n) - Max(s.startHour.value, 0))
  }

  /** Counting open hours agrees with the interval arithmetic of the window. */
  lemma {:induction false} OpenHoursMatchWindow(s: Service, n: nat)
    requires n <= 24
    ensures OpenHoursBefore(s, n) == WindowLengthBefore(s, n)
  {
    if n > 0 {
      OpenHoursMatchWindow(s, n - 1);
    }
  }

  /** A day has end - start open hours for a window inside the day, none for a wrapping one. */
  lemma OpenHoursPerDay(s: Service)
    requires s.active && s.startHour.Some? && s.endHour.Some?
    ensures 0 <= s.startHour.value <= s.endHour.value <= 24 ==>
      OpenHoursBefore(s, 24) == s.endHour.value - s.startHour.value
    ensures s.startHour.value >= s.endHour.value ==> OpenHoursBefore(s, 24) == 0
  {
    OpenHoursMatchWindow(s, 24);
  }

  // ----- rate bands -----

  lemma BandIsHalfOpen(r: Rate)
    ensures r.minKm < r.maxKm ==> IsInRange(r, r.minKm)
    ensures !IsInRange(r, r.maxKm)
    ensures r.minKm >= r.maxKm ==> forall d: real :: !IsInRange(r, d)
  {
  }

  lemma AdjacentBandsDisjoint(a: Rate, b: Rate, d: real)
    requires a.maxKm == b.minKm
    ensures !(IsInRange(a, d) && IsInRange(b, d))
  {
  }

  /** Bands that are each non-empty and each start where the previous one ends. */
  ghost predicate Contiguous(bands: seq<Rate>) {
    && (forall i :: 0 <= i < |bands| ==> bands[i].minKm < bands[i].maxKm)
    && (forall i :: 0 <= i < |bands| - 1 ==> bands[i].maxKm == bands[i + 1].minKm)
  }

  lemma {:induction false} ContiguousAscending(bands: seq<Rate>, i: nat, j: nat)
    requires Contiguous(bands)
    requires i < j < |bands|
    ensures bands[i].maxKm <= bands[j].minKm
    decreases j - i
  {
    if i + 1 < j {
      ContiguousAscending(bands, i + 1, j);
    }
  }

  /** Contiguous bands never overlap: a distance lies in at most one of them. */
  lemma ContiguousAtMostOne(bands: seq<Rate>, d: real, i: nat, j: nat)
    requires Contiguous(bands)
    requires i < |bands| && j < |bands|
    requires IsInRange(bands[i], d) && IsInRange(bands[j], d)
    ensures i == j
  {
    if i < j {
      ContiguousAscending(bands, i, j);
    } else if j < i {
      ContiguousAscending(bands, j, i);
    }
  }

  /** Contiguous bands cover exactly the distances from the first minimum to the last maximum. */
  lemma {:induction false} ContiguousCovers(bands: seq<Rate>, d: real)
    requires Contiguous(bands) && |bands| > 0
    ensures (exists i :: 0 <= i < |bands| && IsInRange(bands[i], d))
      <==> bands[0].minKm <= d < bands[|bands| - 1].maxKm
  {
    var n := |bands| - 1;
    if n > 0 {
      var rest := bands[..n];
      assert Contiguous(rest);
      ContiguousCovers(rest, d);
      if exists i :: 0 <= i < |bands| && IsInRange(bands[i], d) {
        var i :| 0 <= i < |bands| && IsInRange(bands[i], d);
        if i < n {
          assert IsInRange(rest[i], d);
          assert rest[n - 1] == bands[n - 1] && bands[n - 1].maxKm == bands[n].minKm;
        } else {
          ContiguousAscending(bands, 0, n);
        }
      }
      if bands[0].minKm <= d < bands[n].maxKm {
        if d < bands[n].minKm {
          assert bands[n - 1].maxKm == bands[n].minKm;
          var i :| 0 <= i < |rest| && IsInRange(rest[i], d);
          assert IsInRange(bands[i], d);
        } else {
          assert IsInRange(bands[n], d);
        }
      }
    }
  }
}
