/**
 * The catalog that seed_data.py loads, as a fixture, and what the engine does
 * with it. Row ids are assigned by the store; the ones here are illustrative.
 */
module SeedData {
  import opened Wrappers
  import opened Models
  import opened App
  import Decimal

  const MAX_DELIVERY_DISTANCE_KM := 7.0

  function EnvioHoy(): Service {
    Service(1, "Envío Hoy", "ENVIO_HOY", Some("Envío el mismo día (disponible de 00:01 a 18:00)"),
      true, Some(0), Some(18))
  }

  function EnvioProgramado(): Service {
    Service(2, "Envío Programado", "ENVIO_PROGRAMADO", Some("Envío programado (disponible 24 horas)"),
      true, None, None)
  }

  /** The five bands each seeded service gets, with ids from `firstId`. */
  function Bands(serviceId: int, firstId: int): seq<Rate> {
    [ Rate(firstId, serviceId, 0.0, 3.0, 3500, true),
      Rate(firstId + 1, serviceId, 3.0, 4.0, 4500, true),
      Rate(firstId + 2, serviceId, 4.0, 5.0, 5000, true),
      Rate(firstId + 3, serviceId, 5.0, 6.0, 5500, true),
      Rate(firstId + 4, serviceId, 6.0, 7.0, 6500, true) ]
  }

  function Seed(): Catalog {
    Catalog([EnvioHoy(), EnvioProgramado()], Bands(1, 1) + Bands(2, 6))
  }

  /** Same-day delivery is open from hour 0 to hour 17, eighteen hours a day. */
  lemma EnvioHoyWindow()
    ensures IsAvailableNow(EnvioHoy(), 0) && IsAvailableNow(EnvioHoy(), 17)
    ensures !IsAvailableNow(EnvioHoy(), 18) && !IsAvailableNow(EnvioHoy(), 23)
    ensures OpenHoursBefore(EnvioHoy(), 24) == 18
    ensures OpenHoursBefore(EnvioProgramado(), 24) == 24
  {
    OpenHoursPerDay(EnvioHoy());
    OpenHoursMatchWindow(EnvioProgramado(), 24);
  }

  /** Each service's bands tile [0, 7) with no gap and no overlap. */
  lemma SeedBandsTile(serviceId: int, firstId: int, d: real)
    ensures Contiguous(Bands(serviceId, firstId))
    ensures (exists i :: 0 <= i < 5 && IsInRange(Bands(serviceId, firstId)[i], d)) <==> 0.0 <= d < 7.0
  {
    ContiguousCovers(Bands(serviceId, firstId), d);
  }

  lemma SeedActive()
    ensures ActiveServices(Seed().services) == [EnvioHoy(), EnvioProgramado()]
  {
    assert [EnvioHoy(), EnvioProgramado()][..1] == [EnvioHoy()];
  }

  function SeedRates(): seq<Rate> {
    Seed().rates
  }

  /** The loop over the two seeded services, unfolded. */
  lemma MatchesOfSeed(d: real, hour: Hour)
    ensures var services := ActiveServices(Seed().services);
      var first := Matches([EnvioHoy()], SeedRates(), d, hour);
      && Matches(services, SeedRates(), d, hour) ==
           (if !IsAvailableNow(EnvioProgramado(), hour) then first
            else match FindRate(SeedRates(), 2, d)
                 case None => first
                 case Some(r) => first + [Match(EnvioProgramado(), r)])
      && first ==
           (if !IsAvailableNow(EnvioHoy(), hour) then []
            else match FindRate(SeedRates(), 1, d)
                 case None => []
                 case Some(r) => [Match(EnvioHoy(), r)])
  {
    SeedActive();
    assert [EnvioHoy(), EnvioProgramado()][..1] == [EnvioHoy()];
    assert [EnvioHoy()][..0] == [];
  }

  lemma NoSeedBandAt(serviceId: int, d: real)
    requires d >= 7.0
    ensures FindRate(SeedRates(), serviceId, d).None?
  {
    var rates := SeedRates();
    forall i | 0 <= i < |rates|
      ensures !Applicable(rates[i], serviceId, d)
    {
    }
  }

  /**
   * At exactly the ceiling no seeded band applies: the success reply (the one given when the
   * distance does not exceed the ceiling) carries no option and the batch appends no record.
   */
  lemma SeedNothingAtCeiling(hour: Hour, l: Resolution, formats: Formats, reference: string)
    requires l.Located? && l.distanceKm == MAX_DELIVERY_DISTANCE_KM
    ensures !(l.distanceKm > MAX_DELIVERY_DISTANCE_KM)
    ensures Matches(ActiveServices(Seed().services), Seed().rates, l.distanceKm, hour) == []
    ensures Options(l, Matches(ActiveServices(Seed().services), Seed().rates, l.distanceKm, hour), formats) == []
    ensures Logs(l, Matches(ActiveServices(Seed().services), Seed().rates, l.distanceKm, hour), reference) == []
  {
    MatchesOfSeed(MAX_DELIVERY_DISTANCE_KM, hour);
    NoSeedBandAt(1, MAX_DELIVERY_DISTANCE_KM);
    NoSeedBandAt(2, MAX_DELIVERY_DISTANCE_KM);
  }

  lemma Price3500()
    ensures Decimal.FromInt(3500) == "3500"
  {
    assert Decimal.FromNat(3) == "3";
    assert Decimal.FromNat(35) == "35";
    assert Decimal.FromNat(350) == "350";
  }

  lemma FirstBandAtTwoAndAHalf()
    ensures FindRate(SeedRates(), 1, 2.5) == Some(Bands(1, 1)[0])
    ensures FindRate(SeedRates(), 2, 2.5) == Some(Bands(2, 6)[0])
  {
    var rates := SeedRates();
    assert rates[0] == Bands(1, 1)[0] && Applicable(rates[0], 1, 2.5);
    assert forall i :: 0 <= i < 5 ==> !Applicable(rates[i], 2, 2.5);
    assert rates[5] == Bands(2, 6)[0] && Applicable(rates[5], 2, 2.5);
    var i :| 0 <= i < |rates| && rates[i] == FindRate(rates, 2, 2.5).value && Applicable(rates[i], 2, 2.5) &&
      forall j :: 0 <= j < i ==> !Applicable(rates[j], 2, 2.5);
    assert i == 5;
  }

  lemma SeedLoopAtTwoAndAHalf(hour: Hour)
    ensures Matches(ActiveServices(Seed().services), Seed().rates, 2.5, hour) ==
      Matches([EnvioHoy()], SeedRates(), 2.5, hour) + [Match(EnvioProgramado(), Bands(2, 6)[0])]
    ensures Matches([EnvioHoy()], SeedRates(), 2.5, hour) ==
      if hour < 18 then [Match(EnvioHoy(), Bands(1, 1)[0])] else []
  {
    MatchesOfSeed(2.5, hour);
    FirstBandAtTwoAndAHalf();
  }

  /** At 2.5 km both services are quoted at 3500 before 18:00, and only the 24/7 one after. */
  lemma SeedTwoAndAHalfKm(hour: Hour)
    ensures var ms := Matches(ActiveServices(Seed().services), Seed().rates, 2.5, hour);
      && (hour < 18 ==> ms == [Match(EnvioHoy(), Bands(1, 1)[0]), Match(EnvioProgramado(), Bands(2, 6)[0])])
      && (hour >= 18 ==> ms == [Match(EnvioProgramado(), Bands(2, 6)[0])])
      && forall k :: 0 <= k < |ms| ==> Decimal.FromInt(ms[k].rate.price) == "3500"
  {
    SeedLoopAtTwoAndAHalf(hour);
    Price3500();
  }
}
