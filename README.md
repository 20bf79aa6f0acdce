# Rent versus buy: a verified model of the simulation engine

The repository compares renting with buying a home over a horizon of 1 to 50
years. The backend validates one set of economic assumptions and then runs
a deterministic year-by-year projection. The model covers:

- the validation (`SimulationInput` in `backend/schemas.py`);
- the projection (`run_simulation` in `backend/simulator.py`), including
  the monthly loan payment (`calculate_monthly_mortgage`).

The projection tracks five quantities from year to year:
- the rent, which escalates once a year;
- the cumulative rent;
- the buyer's cumulative spending. This starts at the down payment plus
  the buying closing costs.
- the home value, which appreciates once a year;
- the loan balance, amortised over twelve monthly steps each year. A
  month's principal portion is clamped to the balance.

Each year it reports one record:
- the rent for the year and in total;
- the buyer's spending for the year and in total;
- the equity;
- the home value;
- the balance still owed;
- the net cost of buying if the home were sold that year.

It also reports the first year in which buying is strictly cheaper, and a
verdict on the final totals.

The project has five modules:

- `Wrappers` (`wrappers.dfy`): `Option` and `Result`.
- `Schemas` (`schemas.dfy`): the validated input and its validity
  predicate `Valid`.
  - The raw request has optional fields. `Validate` turns it into either
    the input, with defaults filled in, or the list of field errors.
  - Bounds are checked in declaration order, and the down-payment
    validator runs after them.
  - The result records: `YearlyResult`, `Recommendation` and
    `SimulationOutput`.
- `Mortgage` (`mortgage.dfy`): the payment formula `MonthlyMortgage`, the
  month step `Step` with its clamp, and the schedule functions `Balance`,
  `Instalment` and `PaidBetween`. It proves:
  - the balance stays at 0 once paid off, and nothing more is paid after
    that;
  - both payment formulas retire a loan exactly at the end of its term;
  - for a positive rate, this uses the closed form of the annuity balance.
- `Simulator` (`simulator.dfy`): one specification function per reported
  figure of year y (`RentAnnual`, `RentCumulative`, `BuyAnnual`,
  `BuyCumulative`, `HomeValue`, `RemainingMortgage`, `Equity`, `NetCost`),
  plus the break-even scan `FirstCheaperYear`.
  - `RunSimulation` is the imperative loop of the source. Its helpers are
    `SimulateYear`, `RentStep`, `AmortiseYear` and `BuyStep`.
  - Its contract ties every record, both totals, the break-even year and
    the verdict to those functions.
- `SimulatorProperties` (`properties.dfy`): what those figures amount to
  (rent growth, loan retirement, appreciation and depreciation, spending,
  the net-cost identities), plus a one-year cash-purchase example.

Money is an exact `real`. `x ** n` is `Pow(x, n)` for a natural `n`.

## Model

| member | source | states |
|---|---|---|
| Mortgage.Pow | backend/simulator.py:14 | definition of `x ** n` for a natural n; its contract: positive for a positive base, at least 1 for a base of at least 1 |
| Mortgage.MonthlyMortgage | backend/simulator.py:5-14 | 0 on a principal of 0 or less; with a rate of 0 or less, the payment times the number of months is the principal (straight line); with a positive rate, the payment exceeds the first month's interest, so the balance falls |
| Mortgage.Step | backend/simulator.py:50-63 | one month: new balance = balance − principal part; nothing changes or is paid when no balance is owed; otherwise the new balance is ≥ 0, the cash paid is principal + interest, and the full payment is made unless the clamp retires the loan |
| Mortgage.Balance | backend/simulator.py:49-63 | definition: the balance after k months, the month step applied k times to the principal (properties in the rows below) |
| Mortgage.Instalment | backend/simulator.py:49-63 | definition: the cash a month pays, from the month step on that month's opening balance |
| Mortgage.PaidBetween | backend/simulator.py:49-63 | definition: the cash paid over a run of months, the sum of their instalments |
| Mortgage.BalanceNonNegative | backend/simulator.py:50-59 | the balance never goes negative from a non-negative loan |
| Mortgage.PaidOffStaysPaidOff | backend/simulator.py:50-63 | once the balance is 0 it stays 0 and every later month pays nothing |
| Mortgage.NothingPaidAfterPayoff | backend/simulator.py:49-63 | any run of months after payoff adds nothing to the year's mortgage payment |
| Mortgage.StraightLineSchedule | backend/simulator.py:49-59 | at rate 0 with payment P/n, month k leaves P − k·payment; each of the n months pays exactly the payment, all of it principal |
| Mortgage.PaidAtFixedPayment | backend/simulator.py:57-61 | months that each pay the fixed payment add up to count × payment |
| Mortgage.AnnuitySchedule | backend/simulator.py:11-14 | with a positive rate and the annuity payment for n months, the balance is 0 exactly at month n; before that it is positive and each month pays the fixed payment (the clamp never fires early) |
| Mortgage.AnnuityBalanceScaled | backend/simulator.py:49-61 | the annuity balance after k ≤ n months is W·Aⁿ − W·Aᵏ, with A = 1 + monthly rate and W = P/(Aⁿ − 1) |
| Mortgage.AnnuityAboveInterest | backend/simulator.py:14 | the annuity payment exceeds principal × monthly rate |
| Mortgage.PowGrows | backend/simulator.py:14 | powers of a base above 1 grow strictly with the exponent |
| Simulator.LoanOf | backend/simulator.py:21-23 | the loan amount is never negative for a valid input |
| Simulator.LoanWithinPrice | backend/simulator.py:21-22 | the down payment and the loan amount each lie between 0 and the price |
| Simulator.InitialTrackers | backend/simulator.py:18-29 | proof step for `RunSimulation`: the starting trackers are the year-0 figures: rent for year 1, the purchase price, the full loan, no rent paid, and the upfront cost as cumulative spending |
| Simulator.InlineMonth | backend/simulator.py:50-61 | proof step for `AmortiseYear`: the loop body's interest, clamped principal and actual payment are exactly one month step |
| Simulator.AmortiseYear | backend/simulator.py:44-63 | the twelve-month loop leaves the balance of month `start + 12` and pays the schedule's cash for those months; the principal repaid is the fall in the balance |
| Simulator.RentNext | backend/simulator.py:40 | escalating the rent tracker gives the next year's rent |
| Simulator.HomeValueNext | backend/simulator.py:73 | appreciating the value tracker gives the next year's home value |
| Simulator.InlineBuyAnnual | backend/simulator.py:66-69 | proof step for `BuyStep`: mortgage paid + tax + maintenance on the start-of-year value is the year's spending |
| Simulator.InlineNetCost | backend/simulator.py:84-86 | proof step for `BuyStep`: cumulative spending minus net sale proceeds (value − selling costs − balance) is the net cost |
| Simulator.NetCostAt | backend/simulator.py:84-86 | proof step for `BuyStep`: the net cost computed from year y's trackers is year y's net cost |
| Simulator.RecordOf | backend/simulator.py:88-98 | proof step for `SimulateYear`: a record built from year y's figures is the reported record for year y |
| Simulator.RentStep | backend/simulator.py:36-40 | the rent side of a year yields that year's rent, the cumulative rent through it, and next year's monthly rent |
| Simulator.BuyStep | backend/simulator.py:66-86 | the buy side of a year yields that year's spending, the cumulative spending through it, the end-of-year value, the equity and the net cost |
| Simulator.SimulateYear | backend/simulator.py:34-98 | one pass of the year loop appends year y's record and moves every tracker to its year-y value |
| Simulator.FirstCheaperYear | backend/simulator.py:100-103 | definition: the years scanned in order, keeping the first in which buying is strictly cheaper (characterised by `FirstCheaperYearIsLeast`) |
| Simulator.YearRecord | backend/simulator.py:88-98 | definition: year y's record, each field the specification function of that figure |
| Simulator.FirstCheaperYearIsLeast | backend/simulator.py:100-103 | the break-even year is None exactly when buying is never strictly cheaper in years 1..n; otherwise it is the least such year |
| Simulator.Recommend | backend/simulator.py:105-113 | the verdict is Buying exactly when rent total − net buy cost > 0 (a tie goes to Renting); the amount is the absolute difference |
| Simulator.RunSimulation | backend/simulator.py:16-121 | exactly N records, record i being year i + 1's; the totals are year N's figures and equal the last record's; the break-even year is the first year with buying strictly cheaper; the verdict is on the totals |
| SimulatorProperties.RentAnnualPositive | backend/simulator.py:36-40 | every year's rent and insurance is at least 12 × the initial rent |
| SimulatorProperties.RentCumulativeIncreasing | backend/simulator.py:36-37 | the cumulative rent strictly increases from year to year |
| SimulatorProperties.FlatRent | backend/simulator.py:36-40 | with no rent increase, every year's rent is the first year's, 12 × (rent + insurance) |
| SimulatorProperties.FlatRentCumulative | backend/simulator.py:36-37 | with no rent increase, the rent over y years is y × a year's rent |
| SimulatorProperties.PowOne | backend/simulator.py:40 | a growth factor of 1 stays 1 over any number of years |
| SimulatorProperties.PowBelowOne | backend/simulator.py:73 | a growth factor in [0, 1) stays in [0, 1) over one or more years |
| SimulatorProperties.NoAppreciation | backend/simulator.py:73 | without appreciation the home keeps its price |
| SimulatorProperties.AppreciationRaisesValue | backend/simulator.py:73 | with positive appreciation the home value strictly increases |
| SimulatorProperties.DepreciationLowersValue | backend/simulator.py:73 | depreciation of at most 100% keeps the value between 0 (inclusive) and the price (exclusive) from year 1 on |
| SimulatorProperties.DepreciationBeyondTotalLoss | backend/schemas.py:20 | the appreciation rate is unbounded below: under −100% the first year's home value is negative |
| SimulatorProperties.LoanIgnoresAppreciation | backend/simulator.py:21-23 | the loan and every balance are independent of the appreciation rate |
| SimulatorProperties.DepreciationLowersEquity | backend/simulator.py:73-76 | depreciation of less than 200% gives lower equity, every year from the first, than the same purchase without appreciation |
| SimulatorProperties.DeepDepreciationRaisesEquity | backend/simulator.py:73-76 | at −300% the growth factor is −2: in year 2 the home is worth 4 × its price and the equity exceeds that of the same purchase without appreciation |
| SimulatorProperties.PowInsideUnit | backend/simulator.py:73 | a growth factor in (−1, 1) stays in (−1, 1) over one or more years |
| SimulatorProperties.RemainingMortgageNonNegative | backend/simulator.py:50-59 | the balance reported each year is never negative |
| SimulatorProperties.PaymentNonNegative | backend/simulator.py:5-14 | the fixed payment is never negative, and is positive on a positive loan |
| SimulatorProperties.InstalmentNonNegative | backend/simulator.py:50-61 | no month pays a negative amount |
| SimulatorProperties.PaidNonNegative | backend/simulator.py:44-63 | no year's mortgage payment is negative |
| SimulatorProperties.LoanSchedule | backend/simulator.py:49-63 | for either payment formula, a positive loan's balance is 0 exactly at month 12 × term; before that it is positive and each month pays the fixed payment |
| SimulatorProperties.BalanceNonIncreasing | backend/simulator.py:50-59 | for every valid input, the balance never rises from one month to the next |
| SimulatorProperties.PaidOffAfterTerm | backend/simulator.py:49-63 | nothing is owed after the end of the term |
| SimulatorProperties.LoanRetiredAtTerm | backend/simulator.py:44-63 | the reported balance is 0 exactly from year `term` on; each year of the term pays 12 payments, and every later year pays nothing |
| SimulatorProperties.CashPurchase | backend/simulator.py:21-29 | a 100% down payment takes no loan: the upfront cost is price plus closing costs, nothing is owed or paid on a mortgage, and equity equals the home value |
| SimulatorProperties.HomeValueNonNegative | backend/simulator.py:73 | depreciation of at most 100% never makes the value negative |
| SimulatorProperties.BuyAnnualNonNegative | backend/simulator.py:66-69 | in that case each year's spending is non-negative |
| SimulatorProperties.BuyCumulativeGrows | backend/simulator.py:27-70 | in that case cumulative spending starts at the upfront cost and never falls |
| SimulatorProperties.NetCostViaEquity | backend/simulator.py:76-86 | net cost = cumulative spending − equity + selling costs at the current value |
| SimulatorProperties.CashWithoutCostsYears | backend/simulator.py:66-86 | with a cash purchase and no tax, maintenance, appreciation or closing costs: nothing is spent after the price, value and equity stay at the price, and the net cost is 0 in every year |
| SimulatorProperties.CheaperInFirstYear | backend/simulator.py:100-113 | in a one-year run where buying's net cost is below the rent, break-even is year 1 and the verdict is Buying, by the difference |
| SimulatorProperties.CashBuyerFigures | backend/simulator.py:16-98 | one year, 1000 rent, a 100000 home paid in cash and every other rate 0: the record is rent 12000/12000, spending 0/100000, equity 100000, value 100000, owed 0, net cost 0 |
| Schemas.Valid | backend/schemas.py:6-22 | definition: the declared field constraints (1 ≤ years ≤ 50; rent and price > 0; down payment in [0, 100]; loan term > 0; every other rate ≥ 0 except appreciation, which is unconstrained) |
| Schemas.Bounds | backend/schemas.py:6-22 | definition: each field's declared bounds, in declaration order |
| Schemas.Default | backend/schemas.py:11-22 | definition: the defaults 0, 30, 2.0 and 6.0 of the four optional fields; none for the others |
| Schemas.CheckField | backend/schemas.py:6-28 | definition: one field's check, namely default or missing when omitted, else the first broken bound, else the down-payment validator (properties in `CheckPresent`, `CheckedMeetsBounds`, `DownPaymentAbove100Refused`) |
| Schemas.FirstViolated | backend/schemas.py:6-22 | no bound is returned exactly when the value meets every declared bound; otherwise a declared bound that it breaks |
| Schemas.ValidateDownPayment | backend/schemas.py:24-28 | accepts a percentage exactly when it is at most 100, returns it unchanged, and otherwise reports the down-payment error |
| Schemas.Errors | backend/schemas.py:4-22 | every reported error is that field's own check failure, and every failing field is reported |
| Schemas.Validate | backend/schemas.py:4-28 | a request is accepted exactly when every field passes its check, and the result is the built input; a refusal lists at least one error, each of them genuine |
| Schemas.CheckPresent | backend/schemas.py:6-22 | a supplied value passes exactly when it meets every declared bound, and is kept unchanged |
| Schemas.CheckedMeetsBounds | backend/schemas.py:6-22 | a field that passes its check, default or not, meets all its bounds |
| Schemas.ValueMeets | backend/schemas.py:6-22 | the value taken from a passing field meets each of its bounds |
| Schemas.BuildValid | backend/schemas.py:4-22 | an input built from an accepted request is valid |
| Schemas.ValidateSound | backend/schemas.py:4-28 | whatever validation accepts is valid |
| Schemas.ValidateRoundTrip | backend/schemas.py:4-28 | a fully supplied request is accepted, unchanged, exactly when it is valid |
| Schemas.BuildFromRaw | backend/schemas.py:4-22 | building from the fully supplied form of an input gives that input back |
| Schemas.DefaultsApplied | backend/schemas.py:11-22 | omitted optional fields take 0 insurance, a 30-year term, 2% buying costs and 6% selling costs |
| Schemas.BuildDefaults | backend/schemas.py:11-22 | the built input carries those defaults |
| Schemas.DefaultValue | backend/schemas.py:11-22 | an omitted field that has a default takes it |
| Schemas.RequiredFieldMissing | backend/schemas.py:6-20 | omitting a field without a default is reported as missing |
| Schemas.OutOfBoundReported | backend/schemas.py:6-22 | a supplied value that breaks a bound is refused, with the first bound it breaks |
| Schemas.DownPaymentAbove100Refused | backend/schemas.py:15-28 | a down payment above 100 is refused by the declared `le=100` bound |
| Schemas.DownPaymentValidatorNeverFires | backend/schemas.py:24-28 | as a result, the validator's own error can never be produced |

## Left out

- Floating point: money is an exact `real`. IEEE rounding, and the residue it leaves in the amortisation, are not modelled.
- The recommendation text (backend/simulator.py:111-113) is modelled as a verdict, the amount and the number of years. The `,.2f` currency formatting is left out.
- Pydantic mechanics are left out: type coercion (for instance an integral float for an integer field), error message objects and JSON serialisation. `Validate` reports one error per failing field, in field order, naming the first bound broken.
- `principal_paid_this_year` (backend/simulator.py:45, 60) is computed by `Simulator.AmortiseYear` but, as in the source, never reported.
- backend/main.py (HTTP transport) and the frontend are not part of this model.
- Mortgage.MonthlyMortgage: for a positive principal it requires a term of at least one year. The source divides by zero at a term of 0 and computes a meaningless payment for a negative term. Both are unreachable through validation, which demands a positive term.
- Mortgage.MonthlyMortgage: for a positive rate, its own contract only bounds the payment from below. The annuity value is characterised by `Mortgage.AnnuitySchedule` instead, which proves it retires the loan exactly at the end of the term.
- Simulator.RunSimulation: it requires a valid input. Validation guarantees at least one simulated year, so the last record the source reads always exists.
- Break-even is the first year in which the net cost is strictly below the cumulative rent (backend/simulator.py:102). A year of equality does not count.
- The recommendation text does not mention the break-even year (backend/simulator.py:109-113), and neither does the model's `Recommendation`.
- Year 1's annual out-of-pocket spending follows the code: it excludes the down payment and the buying closing costs. Both are seeded into the cumulative figure before the first year (backend/simulator.py:27). So a one-year cash purchase reports 0 for the year and the price cumulatively, as `SimulatorProperties.CashBuyerFigures` states.
- SimulatorProperties.CashBuyerFigures: the loan term is left open (any positive term). With no loan it affects nothing.
- SimulatorProperties.DepreciationLowersEquity: holds only for depreciation of less than 200%. At −200% the growth factor is −1, so year 2's value is the price again and the equity is equal, not lower. Below −200% the value alternates in sign and grows, so even years give higher equity (`DeepDepreciationRaisesEquity`). The appreciation field accepts these rates (backend/schemas.py:20).
