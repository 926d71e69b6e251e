/** The odometer-closing form: the driver types the odometer's total and
    the launch records the distance driven since the previous closing. */
module QuickKm {
  import opened Types
  import opened Seqs
  import opened Calculations
  import opened Maintenance

  /** The distance since the previous closing: `total - lastTotalKm` when a
      previous total is known (positive), otherwise 0. Not clamped: it is
      negative when the odometer reads less than before. */
  function ClosingDistance(total: real, config: AppConfig): (d: real)
    ensures OrZero(config.lastTotalKm) > 0.0 ==> d + OrZero(config.lastTotalKm) == total
    ensures OrZero(config.lastTotalKm) <= 0.0 ==> d == 0.0
  {
    var lastKm := OrZero(config.lastTotalKm);
    if lastKm > 0.0 then total - lastKm else 0.0
  }

  /** The closing launch, or `None` when the total is blank, unparsable or
      not positive. A blank fuel price falls back to the last one used. */
  function ClosingEntry(id: string, date: string, time: string, totalKm: Field, fuelPrice: Field,
                        config: AppConfig): (r: Option<Entry>)
    ensures r.Some? <==> PositiveField(totalKm)
    ensures r.Some? ==> r.value.id == id && r.value.date == date && r.value.time == time
    ensures r.Some? ==> r.value.storeName == ClosingLabel
    ensures r.Some? ==> r.value.grossAmount == 0.0 && r.value.fuel == 0.0 && r.value.food == 0.0
                        && r.value.maintenance == 0.0 && r.value.netAmount == 0.0
    ensures r.Some? ==> r.value.kmAtMaintenance == Some(totalKm.v)
    ensures r.Some? ==> r.value.kmDriven == Some(ClosingDistance(totalKm.v, config))
    ensures r.Some? ==> r.value.category.None? && r.value.paymentMethod.None?
                        && r.value.isPaid.None? && r.value.liters.None?
    ensures r.Some? && fuelPrice.Blank? ==> r.value.fuelPrice == config.lastFuelPrice
    ensures r.Some? && fuelPrice.Number? ==> r.value.fuelPrice == Some(fuelPrice.v)
    ensures r.Some? && fuelPrice.Garbage? ==> r.value.fuelPrice.None?
  {
    if !PositiveField(totalKm) then None
    else
      var total := totalKm.v;
      var price := if fuelPrice.Blank? then config.lastFuelPrice else Parsed(fuelPrice);
      Some(Entry(id, date, time, ClosingLabel, 0.0, 0.0, 0.0, 0.0, 0.0,
                 Some(ClosingDistance(total, config)), price, None, Some(total), None, None, None))
  }

  /** A closing launch is booked as an expense of nothing: it changes the
      summary's distance by the distance driven and no money figure. */
  lemma ClosingMovesOnlyKm(entries: seq<Entry>, id: string, date: string, time: string,
                           totalKm: Field, fuelPrice: Field, config: AppConfig)
    requires PositiveField(totalKm)
    ensures var c := ClosingEntry(id, date, time, totalKm, fuelPrice, config).value;
      var a, b := GetWeeklySummary(entries), GetWeeklySummary(entries + [c]);
      && b.totalKm == a.totalKm + ClosingDistance(totalKm.v, config)
      && b.totalGross == a.totalGross && b.totalNet == a.totalNet && b.totalFees == a.totalFees
      && b.totalSpentFuel == a.totalSpentFuel && b.totalSpentFood == a.totalSpentFood
      && b.totalSpentMaintenance == a.totalSpentMaintenance && b.totalLiters == a.totalLiters
  {
    var c := ClosingEntry(id, date, time, totalKm, fuelPrice, config).value;
    SummaryAppend(entries, c);
  }

  /** For the odometer estimate a closing launch contributes its distance,
      not its absolute reading, whenever that distance is non-zero: after
      closings at 50000 and 50120 km the second one reads as 120. */
  lemma ClosingDistanceWinsOverReading()
    ensures var config := DefaultConfig().(lastTotalKm := Some(50000.0));
      var c := ClosingEntry("k", "2024-01-02", "20:00", Number(50120.0), Blank, config).value;
      c.kmAtMaintenance == Some(50120.0) && KmReading(c) == 120.0
  {
  }

  /** The very first closing (no previous total) records a distance of 0,
      so its absolute reading is what the odometer estimate sees. */
  lemma FirstClosingReadsTheTotal(id: string, date: string, time: string, total: real, fuelPrice: Field,
                                  config: AppConfig)
    requires total > 0.0 && OrZero(config.lastTotalKm) <= 0.0
    ensures KmReading(ClosingEntry(id, date, time, Number(total), fuelPrice, config).value) == total
  {
  }

  /** Distances of consecutive closings add up: after closing at `t1` and
      then at `t2` (each closing becoming the last total, as the
      application records it), the two distances sum to `t2 - t0`. */
  lemma ClosingsTelescope(t0: real, t1: real, t2: real, config: AppConfig)
    requires t0 > 0.0 && t1 > 0.0 && t2 > 0.0
    ensures ClosingDistance(t1, config.(lastTotalKm := Some(t0)))
          + ClosingDistance(t2, config.(lastTotalKm := Some(t1))) == t2 - t0
  {
  }

  /** An odometer that reads less than the last total yields a negative
      distance. */
  lemma RegressionIsNegative(t0: real, t1: real, config: AppConfig)
    requires 0.0 < t1 < t0
    ensures ClosingDistance(t1, config.(lastTotalKm := Some(t0))) < 0.0
  {
  }
}
