/** The edit form of a launch: the fields it starts from and the launch it
    rebuilds on save through the income or expense factory, keeping the
    launch's id. */
module EditModal {
  import opened Types
  import opened Strings
  import opened Calculations

  /** The form's state. Numeric inputs are text fields; the payment method
      and the expense category are always set. */
  datatype EditForm = EditForm(
    amount: Field,
    description: string,
    date: string,
    time: string,
    kmDriven: Field,
    fuelPrice: Field,
    kmAtMaintenance: Field,
    liters: Field,
    paymentMethod: Payment,
    isPaid: bool,
    category: ExpenseCategory)

  /** `x?.toString() || ''`: a present number fills the field (zero
      included), an absent one leaves it blank. */
  function FieldOf(o: Option<real>): (f: Field)
    ensures Parsed(f) == o
  {
    if o.Some? then Number(o.value) else Blank
  }

  /** The bucket an expense is edited under: the first positive one among
      fuel and food, else maintenance. */
  function InitialCategory(e: Entry): (c: ExpenseCategory)
    ensures e.fuel > 0.0 ==> c == Fuel
    ensures e.fuel <= 0.0 && e.food > 0.0 ==> c == Food
    ensures e.fuel <= 0.0 && e.food <= 0.0 ==> c == Maintenance
  {
    if e.fuel > 0.0 then Fuel else if e.food > 0.0 then Food else Maintenance
  }

  /** The form filled from a launch. An income is edited as an income with
      its gross; anything else as an expense with the sum of its buckets and
      its label without the first "[GASTO] ". */
  function InitialForm(e: Entry): (f: EditForm)
    ensures IsIncome(e) ==> f.amount == Number(e.grossAmount) && f.description == e.storeName
    ensures !IsIncome(e) ==> f.amount == Number(e.fuel + e.food + e.maintenance)
    ensures !IsIncome(e) && StartsWith(e.storeName, "[GASTO] ") ==> "[GASTO] " + f.description == e.storeName
    ensures !IsIncome(e) && !Contains(e.storeName, "[GASTO] ") ==> f.description == e.storeName
    ensures f.date == e.date && f.time == e.time
    ensures Parsed(f.kmDriven) == e.kmDriven && Parsed(f.fuelPrice) == e.fuelPrice
    ensures Parsed(f.kmAtMaintenance) == e.kmAtMaintenance && Parsed(f.liters) == e.liters
    ensures f.paymentMethod == e.paymentMethod.GetOr(Pix)
    ensures f.isPaid <==> e.isPaid == Some(true)
    ensures f.category == InitialCategory(e)
  {
    var income := e.grossAmount > 0.0;
    EditForm(
      if income then Number(e.grossAmount) else Number(e.fuel + e.food + e.maintenance),
      if income then e.storeName else ReplaceFirst(e.storeName, "[GASTO] ", ""),
      e.date, e.time,
      FieldOf(e.kmDriven), FieldOf(e.fuelPrice), FieldOf(e.kmAtMaintenance), FieldOf(e.liters),
      e.paymentMethod.GetOr(Pix), e.isPaid == Some(true), InitialCategory(e))
  }

  /** Saving: nothing for an amount that does not parse or is not positive;
      otherwise the launch rebuilt by the factory of the launch's original
      kind, with the original id, and paid whenever the method is cash.
      An optional numeric field that does not parse is saved as absent. */
  function SaveEdit(e: Entry, f: EditForm, config: AppConfig): (r: Option<Entry>)
    ensures r.Some? <==> PositiveField(f.amount)
    ensures r.Some? ==> r.value.id == e.id
    ensures r.Some? ==> r.value.isPaid == Some(f.paymentMethod == Money || f.isPaid)
    ensures r.Some? ==> r.value.paymentMethod == Some(f.paymentMethod)
    ensures r.Some? ==> r.value.date == f.date && r.value.time == f.time
    ensures r.Some? && IsIncome(e) ==>
      r.value == CalculateDailyEntry(e.id, f.amount.v, f.date, f.time, f.description, config,
                                     Parsed(f.kmDriven), Parsed(f.fuelPrice), Some(f.paymentMethod))
                   .(isPaid := r.value.isPaid)
    ensures r.Some? && !IsIncome(e) ==>
      r.value == CalculateManualExpense(e.id, f.amount.v, f.category, f.date, f.time, f.description,
                                        Parsed(f.kmAtMaintenance), Some(f.paymentMethod), Parsed(f.liters))
                   .(isPaid := r.value.isPaid)
  {
    if !PositiveField(f.amount) then None
    else
      var amount := f.amount.v;
      var paid := Some(f.paymentMethod == Money || f.isPaid);
      if e.grossAmount > 0.0 then
        Some(CalculateDailyEntry(e.id, amount, f.date, f.time, f.description, config,
                                 Parsed(f.kmDriven), Parsed(f.fuelPrice), Some(f.paymentMethod))
               .(isPaid := paid))
      else
        Some(CalculateManualExpense(e.id, amount, f.category, f.date, f.time, f.description,
                                    Parsed(f.kmAtMaintenance), Some(f.paymentMethod), Parsed(f.liters))
               .(isPaid := paid))
  }

  /** An odometer closing (no money anywhere) opens with amount 0, so it
      cannot be saved without typing an amount. */
  lemma ClosingCannotBeResaved(e: Entry, config: AppConfig)
    requires e.grossAmount == 0.0 && e.fuel == 0.0 && e.food == 0.0 && e.maintenance == 0.0
    ensures SaveEdit(e, InitialForm(e), config) == None
  {
  }

  /** Opening and saving an expense built by the expense factory gives it
      back unchanged: buckets, net, litres, label and category. */
  lemma ExpenseResaveIsIdentity(id: string, amount: real, category: ExpenseCategory, date: string, time: string,
                                description: string, km: Option<real>, pm: Payment, liters: Option<real>,
                                config: AppConfig)
    requires amount > 0.0
    ensures var e := CalculateManualExpense(id, amount, category, date, time, description, km, Some(pm), liters);
      SaveEdit(e, InitialForm(e), config) == Some(e)
  {
    var e := CalculateManualExpense(id, amount, category, date, time, description, km, Some(pm), liters);
    var f := InitialForm(e);
    var d := if description == "" then "Despesa Extra" else description;
    assert e.storeName == "[GASTO] " + d;
    assert StartsWith(e.storeName, "[GASTO] ");
    assert f.description == d;
    assert ExpenseLabel(d) == e.storeName;
  }

  /** Opening and saving an income built by the income factory under the
      same configuration gives it back unchanged. */
  lemma IncomeResaveIsIdentity(id: string, gross: real, date: string, time: string, store: string,
                               config: AppConfig, km: Option<real>, fuelPrice: Option<real>, pm: Payment)
    requires gross > 0.0
    ensures var e := CalculateDailyEntry(id, gross, date, time, store, config, km, fuelPrice, Some(pm));
      SaveEdit(e, InitialForm(e), config) == Some(e)
  {
    var e := CalculateDailyEntry(id, gross, date, time, store, config, km, fuelPrice, Some(pm));
    var f := InitialForm(e);
    assert IsIncome(e) && f.amount == Number(gross) && f.description == e.storeName != "";
    assert f.isPaid <==> pm == Money;
    var again := CalculateDailyEntry(id, gross, date, time, f.description, config, km, fuelPrice, Some(pm));
    assert again.storeName == e.storeName && again.isPaid == e.isPaid;
    assert again == e;
  }

  /** Saving an income recomputes its reserves under the configuration in
      force at save time, not the one it was created under. */
  lemma IncomeResaveUsesCurrentConfig(e: Entry, config: AppConfig)
    requires IsIncome(e)
    ensures var r := SaveEdit(e, InitialForm(e), config);
      && r.Some?
      && r.value.fuel == e.grossAmount * config.percFuel
      && r.value.food == e.grossAmount * config.percFood
      && r.value.maintenance == e.grossAmount * config.percMaintenance
      && r.value.grossAmount == e.grossAmount
  {
  }
}
