/**
 * The input domain of the simulation and the records it produces.
 *
 * A request arrives as a RawInput in which every field may be absent.
 * Validate checks each field against its declared bounds, fills the
 * declared defaults, runs the down-payment validator, and either builds a
 * SimulationInput or reports one error per failing field (every failing
 * field is reported, not only the first).
 */
module Schemas {
  import opened Wrappers

  /** The thirteen fields of a simulation request, in declaration order. */
  datatype Field =
    | YearsToSimulate
    | MonthlyRent
    | AnnualRentIncreasePercent
    | RentInsuranceMonthly
    | HomePrice
    | DownPaymentPercent
    | MortgageInterestRatePercent
    | LoanTermYears
    | PropertyTaxRatePercent
    | MaintenanceCostPercent
    | HomeAppreciationRatePercent
    | BuyingClosingCostsPercent
    | SellingClosingCostsPercent

  const AllFields: seq<Field> := [
    YearsToSimulate, MonthlyRent, AnnualRentIncreasePercent, RentInsuranceMonthly,
    HomePrice, DownPaymentPercent, MortgageInterestRatePercent, LoanTermYears,
    PropertyTaxRatePercent, MaintenanceCostPercent, HomeAppreciationRatePercent,
    BuyingClosingCostsPercent, SellingClosingCostsPercent]

  /** A validated simulation request. */
  datatype SimulationInput = SimulationInput(
    yearsToSimulate: int,
    monthlyRent: real,
    annualRentIncreasePercent: real,
    rentInsuranceMonthly: real,
    homePrice: real,
    downPaymentPercent: real,
    mortgageInterestRatePercent: real,
    loanTermYears: int,
    propertyTaxRatePercent: real,
    maintenanceCostPercent: real,
    homeAppreciationRatePercent: real,
    buyingClosingCostsPercent: real,
    sellingClosingCostsPercent: real)

  /** A request before validation: any field may be missing. */
  datatype RawInput = RawInput(
    yearsToSimulate: Option<int>,
    monthlyRent: Option<real>,
    annualRentIncreasePercent: Option<real>,
    rentInsuranceMonthly: Option<real>,
    homePrice: Option<real>,
    downPaymentPercent: Option<real>,
    mortgageInterestRatePercent: Option<real>,
    loanTermYears: Option<int>,
    propertyTaxRatePercent: Option<real>,
    maintenanceCostPercent: Option<real>,
    homeAppreciationRatePercent: Option<real>,
    buyingClosingCostsPercent: Option<real>,
    sellingClosingCostsPercent: Option<real>)

  const DefaultRentInsuranceMonthly: real := 0.0
  const DefaultLoanTermYears: int := 30
  const DefaultBuyingClosingCostsPercent: real := 2.0
  const DefaultSellingClosingCostsPercent: real := 6.0

  /** The validity predicate the simulation engine assumes of its input. */
  predicate Valid(d: SimulationInput)
  {
    && 0 < d.yearsToSimulate <= 50
    && d.monthlyRent > 0.0
    && d.annualRentIncreasePercent >= 0.0
    && d.rentInsuranceMonthly >= 0.0
    && d.homePrice > 0.0
    && 0.0 <= d.downPaymentPercent <= 100.0
    && d.mortgageInterestRatePercent >= 0.0
    && d.loanTermYears > 0
    && d.propertyTaxRatePercent >= 0.0
    && d.maintenanceCostPercent >= 0.0
    && d.buyingClosingCostsPercent >= 0.0
    && d.sellingClosingCostsPercent >= 0.0
  }

  /** A declared numeric bound on a field. */
  datatype Bound = GreaterThan(limit: real) | AtLeast(limit: real) | AtMost(limit: real)

  datatype Violation = Missing | OutOfBound(bound: Bound) | DownPaymentAbove100

  datatype FieldError = FieldError(field: Field, violation: Violation)

  predicate Satisfies(v: real, b: Bound)
  {
    match b
    case GreaterThan(l) => v > l
    case AtLeast(l) => v >= l
    case AtMost(l) => v <= l
  }

  /** The bounds each field declares, in the order they are checked. */
  function Bounds(f: Field): seq<Bound>
  {
    match f
    case YearsToSimulate => [GreaterThan(0.0), AtMost(50.0)]
    case MonthlyRent => [GreaterThan(0.0)]
    case AnnualRentIncreasePercent => [AtLeast(0.0)]
    case RentInsuranceMonthly => [AtLeast(0.0)]
    case HomePrice => [GreaterThan(0.0)]
    case DownPaymentPercent => [AtLeast(0.0), AtMost(100.0)]
    case MortgageInterestRatePercent => [AtLeast(0.0)]
    case LoanTermYears => [GreaterThan(0.0)]
    case PropertyTaxRatePercent => [AtLeast(0.0)]
    case MaintenanceCostPercent => [AtLeast(0.0)]
    case HomeAppreciationRatePercent => []
    case BuyingClosingCostsPercent => [AtLeast(0.0)]
    case SellingClosingCostsPercent => [AtLeast(0.0)]
  }

  /** The value an omitted field takes; None for a required field. */
  function Default(f: Field): Option<real>
  {
    match f
    case RentInsuranceMonthly => Some(DefaultRentInsuranceMonthly)
    case LoanTermYears => Some(DefaultLoanTermYears as real)
    case BuyingClosingCostsPercent => Some(DefaultBuyingClosingCostsPercent)
    case SellingClosingCostsPercent => Some(DefaultSellingClosingCostsPercent)
    case _ => None
  }

  /** The raw value of one field, integer fields read as reals for the bound checks. */
  function RawValue(raw: RawInput, f: Field): Option<real>
  {
    match f
    case YearsToSimulate => if raw.yearsToSimulate.Some? then Some(raw.yearsToSimulate.value as real) else None
    case MonthlyRent => raw.monthlyRent
    case AnnualRentIncreasePercent => raw.annualRentIncreasePercent
    case RentInsuranceMonthly => raw.rentInsuranceMonthly
    case HomePrice => raw.homePrice
    case DownPaymentPercent => raw.downPaymentPercent
    case MortgageInterestRatePercent => raw.mortgageInterestRatePercent
    case LoanTermYears => if raw.loanTermYears.Some? then Some(raw.loanTermYears.value as real) else None
    case PropertyTaxRatePercent => raw.propertyTaxRatePercent
    case MaintenanceCostPercent => raw.maintenanceCostPercent
    case HomeAppreciationRatePercent => raw.homeAppreciationRatePercent
    case BuyingClosingCostsPercent => raw.buyingClosingCostsPercent
    case SellingClosingCostsPercent => raw.sellingClosingCostsPercent
  }

  /** The first bound, in declaration order, that v breaks. */
  function FirstViolated(v: real, bs: seq<Bound>): (r: Option<Bound>)
    ensures r.None? <==> forall b :: b in bs ==> Satisfies(v, b)
    ensures r.Some? ==> r.value in bs && !Satisfies(v, r.value)
  {
    if bs == [] then None
    else if !Satisfies(v, bs[0]) then Some(bs[0])
    else FirstViolated(v, bs[1..])
  }

  /** The down-payment validator: a percentage above 100 is refused. */
  function ValidateDownPayment(v: real): (r: Result<real, Violation>)
    ensures r.Ok? <==> v <= 100.0
    ensures r.Ok? ==> r.value == v
    ensures r.Err? ==> r.error == DownPaymentAbove100
  {
    if v > 100.0 then Err(DownPaymentAbove100) else Ok(v)
  }

  /**
   * Validation of one field: an omitted field takes its default or is
   * reported missing, a present one must meet every declared bound, and
   * the down payment then goes through its validator.
   */
  function CheckField(f: Field, v: Option<real>): Result<real, FieldError>
  {
    match v
    case None =>
      if Default(f).Some? then Ok(Default(f).value) else Err(FieldError(f, Missing))
    case Some(x) =>
      match FirstViolated(x, Bounds(f))
      case Some(b) => Err(FieldError(f, OutOfBound(b)))
      case None =>
        if f == DownPaymentPercent then
          match ValidateDownPayment(x)
          case Ok(y) => Ok(y)
          case Err(e) => Err(FieldError(f, e))
        else Ok(x)
  }

  /** The errors of the fields fs, one per failing field, in field order. */
  function Errors(raw: RawInput, fs: seq<Field>): (es: seq<FieldError>)
    ensures forall e :: e in es ==> e.field in fs && CheckField(e.field, RawValue(raw, e.field)) == Err(e)
    ensures forall f :: f in fs && CheckField(f, RawValue(raw, f)).Err? ==> CheckField(f, RawValue(raw, f)).error in es
    ensures |es| <= |fs|
  {
    if fs == [] then []
    else
      var check := CheckField(fs[0], RawValue(raw, fs[0]));
      (if check.Err? then [check.error] else []) + Errors(raw, fs[1..])
  }

  /** Every field of raw passes its check. */
  predicate Accepted(raw: RawInput)
  {
    forall f: Field :: CheckField(f, RawValue(raw, f)).Ok?
  }

  lemma EveryFieldListed(f: Field)
    ensures f in AllFields
  {
  }

  /** The value a field's check yields; only read for fields that passed. */
  function Value(raw: RawInput, f: Field): real
  {
    var r := CheckField(f, RawValue(raw, f));
    if r.Ok? then r.value else 0.0
  }

  /** The validated request built from a raw request whose every field passed. */
  function Build(raw: RawInput): SimulationInput
    requires Accepted(raw)
  {
    SimulationInput(
      if raw.yearsToSimulate.Some? then raw.yearsToSimulate.value else 0,
      Value(raw, MonthlyRent),
      Value(raw, AnnualRentIncreasePercent),
      Value(raw, RentInsuranceMonthly),
      Value(raw, HomePrice),
      Value(raw, DownPaymentPercent),
      Value(raw, MortgageInterestRatePercent),
      if raw.loanTermYears.Some? then raw.loanTermYears.value else DefaultLoanTermYears,
      Value(raw, PropertyTaxRatePercent),
      Value(raw, MaintenanceCostPercent),
      Value(raw, HomeAppreciationRatePercent),
      Value(raw, BuyingClosingCostsPercent),
      Value(raw, SellingClosingCostsPercent))
  }

  /** Validation of a whole request: the built input, or every field error. */
  function Validate(raw: RawInput): (r: Result<SimulationInput, seq<FieldError>>)
    ensures r.Err? ==> |r.error| > 0
    ensures r.Err? ==> forall e :: e in r.error ==> CheckField(e.field, RawValue(raw, e.field)) == Err(e)
    ensures r.Ok? <==> Accepted(raw)
    ensures r.Ok? ==> Accepted(raw) && r.value == Build(raw)
  {
    var es := Errors(raw, AllFields);
    if es == [] then
      assert Accepted(raw) by {
        forall f: Field ensures CheckField(f, RawValue(raw, f)).Ok? {
          EveryFieldListed(f);
        }
      }
      Ok(Build(raw))
    else
      assert es[0] in es;
      Err(es)
  }

  /** The request that supplies every field of d explicitly. */
  function ToRaw(d: SimulationInput): RawInput
  {
    RawInput(
      Some(d.yearsToSimulate), Some(d.monthlyRent), Some(d.annualRentIncreasePercent),
      Some(d.rentInsuranceMonthly), Some(d.homePrice), Some(d.downPaymentPercent),
      Some(d.mortgageInterestRatePercent), Some(d.loanTermYears), Some(d.propertyTaxRatePercent),
      Some(d.maintenanceCostPercent), Some(d.homeAppreciationRatePercent),
      Some(d.buyingClosingCostsPercent), Some(d.sellingClosingCostsPercent))
  }

  /** A present value passes a field's check exactly when it meets every bound, and is kept as given. */
  lemma CheckPresent(f: Field, x: real)
    ensures CheckField(f, Some(x)).Ok? <==> forall b :: b in Bounds(f) ==> Satisfies(x, b)
    ensures CheckField(f, Some(x)).Ok? ==> CheckField(f, Some(x)).value == x
  {
    if f == DownPaymentPercent {
      assert AtMost(100.0) in Bounds(f);
    }
  }

  /** A field that passes its check holds a value meeting every bound, defaults included. */
  lemma CheckedMeetsBounds(f: Field, v: Option<real>)
    requires CheckField(f, v).Ok?
    ensures forall b :: b in Bounds(f) ==> Satisfies(CheckField(f, v).value, b)
  {
    if v.Some? {
      CheckPresent(f, v.value);
    }
  }

  /** The input built from an accepted request meets the validity predicate. */
  lemma BuildValid(raw: RawInput)
    requires Accepted(raw)
    ensures Valid(Build(raw))
  {
    ValueMeets(raw, YearsToSimulate, GreaterThan(0.0));
    ValueMeets(raw, YearsToSimulate, AtMost(50.0));
    ValueMeets(raw, MonthlyRent, GreaterThan(0.0));
    ValueMeets(raw, AnnualRentIncreasePercent, AtLeast(0.0));
    ValueMeets(raw, RentInsuranceMonthly, AtLeast(0.0));
    ValueMeets(raw, HomePrice, GreaterThan(0.0));
    ValueMeets(raw, DownPaymentPercent, AtLeast(0.0));
    ValueMeets(raw, DownPaymentPercent, AtMost(100.0));
    ValueMeets(raw, MortgageInterestRatePercent, AtLeast(0.0));
    ValueMeets(raw, LoanTermYears, GreaterThan(0.0));
    ValueMeets(raw, PropertyTaxRatePercent, AtLeast(0.0));
    ValueMeets(raw, MaintenanceCostPercent, AtLeast(0.0));
    ValueMeets(raw, BuyingClosingCostsPercent, AtLeast(0.0));
    ValueMeets(raw, SellingClosingCostsPercent, AtLeast(0.0));
  }

  /** A field that passed its check holds a value meeting each of its bounds, defaults included. */
  lemma ValueMeets(raw: RawInput, f: Field, b: Bound)
    requires CheckField(f, RawValue(raw, f)).Ok? && b in Bounds(f)
    ensures Satisfies(Value(raw, f), b)
  {
    CheckedMeetsBounds(f, RawValue(raw, f));
  }

  /** Whatever validation accepts meets the validity predicate. */
  lemma ValidateSound(raw: RawInput)
    requires Validate(raw).Ok?
    ensures Valid(Validate(raw).value)
  {
    assert Validate(raw).value == Build(raw);
    BuildValid(raw);
  }

  /** A fully supplied request is accepted, unchanged, exactly when it is valid. */
  lemma ValidateRoundTrip(d: SimulationInput)
    ensures Valid(d) <==> Validate(ToRaw(d)) == Ok(d)
  {
    var raw := ToRaw(d);
    if Valid(d) {
      forall f: Field
        ensures CheckField(f, RawValue(raw, f)).Ok?
        ensures CheckField(f, RawValue(raw, f)).value == RawValue(raw, f).value
      {
        CheckPresent(f, RawValue(raw, f).value);
      }
      assert Accepted(raw);
      BuildFromRaw(d);
    }
    if Validate(raw) == Ok(d) {
      ValidateSound(raw);
    }
  }

  lemma BuildFromRaw(d: SimulationInput)
    requires Accepted(ToRaw(d))
    requires forall f: Field :: CheckField(f, RawValue(ToRaw(d), f)).value == RawValue(ToRaw(d), f).value
    ensures Build(ToRaw(d)) == d
  {
  }

  /** Omitted optional fields take their declared defaults. */
  lemma DefaultsApplied(raw: RawInput)
    requires Validate(raw).Ok?
    ensures raw.rentInsuranceMonthly.None? ==> Validate(raw).value.rentInsuranceMonthly == 0.0
    ensures raw.loanTermYears.None? ==> Validate(raw).value.loanTermYears == 30
    ensures raw.buyingClosingCostsPercent.None? ==> Validate(raw).value.buyingClosingCostsPercent == 2.0
    ensures raw.sellingClosingCostsPercent.None? ==> Validate(raw).value.sellingClosingCostsPercent == 6.0
  {
    BuildDefaults(raw);
  }

  lemma BuildDefaults(raw: RawInput)
    requires Accepted(raw)
    ensures raw.rentInsuranceMonthly.None? ==> Build(raw).rentInsuranceMonthly == 0.0
    ensures raw.loanTermYears.None? ==> Build(raw).loanTermYears == 30
    ensures raw.buyingClosingCostsPercent.None? ==> Build(raw).buyingClosingCostsPercent == 2.0
    ensures raw.sellingClosingCostsPercent.None? ==> Build(raw).sellingClosingCostsPercent == 6.0
  {
    DefaultValue(raw, RentInsuranceMonthly);
    DefaultValue(raw, BuyingClosingCostsPercent);
    DefaultValue(raw, SellingClosingCostsPercent);
  }

  /** An omitted field with a default takes that default. */
  lemma DefaultValue(raw: RawInput, f: Field)
    ensures RawValue(raw, f).None? && Default(f).Some? ==> Value(raw, f) == Default(f).value
  {
  }

  /** Omitting a required field is reported as that field missing. */
  lemma RequiredFieldMissing(raw: RawInput, f: Field)
    requires Default(f).None? && RawValue(raw, f).None?
    ensures Validate(raw).Err? && FieldError(f, Missing) in Validate(raw).error
  {
    EveryFieldListed(f);
  }

  /** A present value that breaks a bound is reported with the first bound it breaks. */
  lemma OutOfBoundReported(raw: RawInput, f: Field)
    requires RawValue(raw, f).Some?
    requires exists b :: b in Bounds(f) && !Satisfies(RawValue(raw, f).value, b)
    ensures Validate(raw).Err?
    ensures FieldError(f, OutOfBound(FirstViolated(RawValue(raw, f).value, Bounds(f)).value)) in Validate(raw).error
  {
    EveryFieldListed(f);
  }

  /**
   * The declared bound of at most 100 is checked before the down-payment
   * validator, so a percentage above 100 is refused by the bound and the
   * validator's own error is never produced.
   */
  lemma DownPaymentAbove100Refused(x: real)
    requires x > 100.0
    ensures CheckField(DownPaymentPercent, Some(x)) == Err(FieldError(DownPaymentPercent, OutOfBound(AtMost(100.0))))
  {
    assert FirstViolated(x, [AtMost(100.0)]) == Some(AtMost(100.0));
    assert Bounds(DownPaymentPercent)[1..] == [AtMost(100.0)];
    assert FirstViolated(x, Bounds(DownPaymentPercent)) == Some(AtMost(100.0));
  }

  lemma DownPaymentValidatorNeverFires(f: Field, v: Option<real>)
    ensures CheckField(f, v) != Err(FieldError(f, DownPaymentAbove100))
  {
    if f == DownPaymentPercent && v.Some? {
      assert AtMost(100.0) in Bounds(f);
    }
  }

  /** One year of the simulation as reported. */
  datatype YearlyResult = YearlyResult(
    year: int,
    rentAnnualCost: real,
    rentCumulativeCost: real,
    buyAnnualOutOfPocket: real,
    buyCumulativeOutOfPocket: real,
    buyEquity: real,
    buyHomeValue: real,
    buyRemainingMortgage: real,
    buyNetCost: real)

  /** Which option the final totals favour. */
  datatype Verdict = Buying | Renting

  /** The recommendation: the favoured option, by how much, over how many years. */
  datatype Recommendation = Recommendation(verdict: Verdict, amount: real, years: int)

  datatype SimulationOutput = SimulationOutput(
    results: seq<YearlyResult>,
    totalRentCost: real,
    totalBuyCostNet: real,
    breakEvenYear: Option<int>,
    recommendation: Recommendation)
}
