# Budget allocation in computational-economy, modelled in Dafny

Every agent of the computational-economy simulation decides how much of each
input to buy with a given budget. This project models the three parts of
that allocation engine and proves properties of the model:

- **The Cobb-Douglas function** (`CobbDouglas`, `CobbDouglasProperties`).
  It covers the constructor's parameter checks, the output `f`, the partial
  derivative with its special rule for 0 times infinity, and the dispatch to
  the fixed-price solver. It also covers the two closed-form Lagrangian
  solvers: `x_t = e_t * b / p_t` for fixed prices, and
  `x_t = e_t * (b - S) / c0_t` for shifted-rational price curves
  `p(x) = c0 + c(-1) / x`, where S sums the c(-1) of all configs. Both
  solvers share one allocation step (`Allocation`). The proofs show:
  - the fixed-price solver spends the budget times the exponent sum;
  - when the exponents sum to 1, the shifted-rational solver's variable
    cost (the sum of c0 * x) plus the sum of the c(-1) is the budget;
  - a NaN price zeroes the whole bundle;
  - rescaling all fixed prices and the budget together leaves the
    fixed-price bundle unchanged;
  - with no shift the second solver is the first.

  The fixed-price spend is exactly the budget only when the exponents sum to
  exactly 1. The constructor checks that sum only within MathUtil's
  tolerance, so a function it accepts may spend slightly more or less than
  the budget.
- **The iterative greedy optimizer** (`IterativeOptimizer`). First come two
  degenerate exits. Next comes an optional seeding of 1e-7 per input, charged
  to the budget. Then a loop buys one slice `budget / N` of the input with the
  best marginal output per price, until the budget is spent or no candidate
  remains.
- **The older optimizer for fixed unit costs** (`NatureOptimizer`). It
  overwrites NaN costs in the caller's map in place and cuts the budget into 20 slices per
  input type. A final pass sets amounts that are near zero to exactly 0.

The two greedy loops are imperative methods. Each is proved against a
recursive specification function `Fill` over a purchase state (bundle, money
spent, slices bought); the part they share sits in `Greedy`. The contract
of `Fill` says that the input types stay the same and that the loop ends
only where the budget no longer exceeds the money spent or no candidate is
selected. Lemmas about `Fill` state five more facts:
- every iteration adds exactly one slice to the money spent;
- amounts never decrease;
- the loop buys at most N slices;
- it stops below the budget plus one slice;
- with no input types it stops at once.

Java doubles are modelled by `Doubles.Double`: an exact real, or NaN, or one
of the two infinities. Addition, multiplication and division follow Java's
rules for NaN and infinity. Three collaborators become parameters:
- `Math.pow`, with the laws the proofs need (`PowLaws`);
- the tolerance comparisons of MathUtil (`Tolerance.Comparisons`, with a
  soundness condition);
- the candidate selectors.

A Java `LinkedHashMap` is a `LinkedMap`: a key order together with a map.

**A defect in the source.** In the shifted-rational solver, a missing config
for an input type sets the NaN flag
(src/main/java/compecon/math/CobbDouglasFunction.java:333). The amount loop
then dereferences that missing config anyway (line 354), which throws a
NullPointerException in Java. So the model requires a config for every input
type. Under that requirement, the missing-config half of the flag can never
be true.

## Model

| member | source | states |
|---|---|---|
| CobbDouglas.CobbDouglasFunction.constructor | src/main/java/compecon/math/CobbDouglasFunction.java:39-57 | construction demands a coefficient greater than 0, every exponent strictly inside ]0, 1[ and exponents summing to 1 within tolerance; the new object holds exactly the given coefficient and exponents |
| CobbDouglas.CobbDouglasFunction.GetInputTypes | src/main/java/compecon/math/CobbDouglasFunction.java:59-62 | the domain is exactly the key set of the exponent table |
| CobbDouglas.CobbDouglasFunction.SetCoefficient | src/main/java/compecon/math/CobbDouglasFunction.java:371-373 | the coefficient field is overwritten with the new value |
| CobbDouglas.CobbDouglasFunction.GetCoefficient | src/main/java/compecon/math/CobbDouglasFunction.java:367-369 | the getter returns the current coefficient field |
| CobbDouglas.CobbDouglasFunction.F | src/main/java/compecon/math/CobbDouglasFunction.java:68-77 | for a positive coefficient and a non-negative bundle, f is finite and non-negative, and it is 0 exactly when some input is 0 |
| CobbDouglas.ProductVanishesIffSomeBaseIsZero | src/main/java/compecon/math/CobbDouglasFunction.java:70-76 | the product loop of f is finite and non-negative, and it is zero exactly when the start value or some base is zero |
| CobbDouglas.CobbDouglasFunction.PartialDerivative | src/main/java/compecon/math/CobbDouglasFunction.java:83-115 | the partial derivative is 0 when another input is 0 (this includes the 0 times infinity case), +infinity when only the own input is 0, and positive and finite when every input is positive |
| CobbDouglas.OwnFactorCases | src/main/java/compecon/math/CobbDouglasFunction.java:101-108 | the own factor e * x^(e-1) is infinite at x = 0 and positive and finite for x > 0 |
| CobbDouglas.CobbDouglasFunction.CalculateOutputMaximizingInputs | src/main/java/compecon/math/CobbDouglasFunction.java:117-142 | the fixed-price solver is used when every supplied price function is fixed, and the inherited general solver otherwise |
| CobbDouglasProperties.DispatchWithPriceCurveIsInherited | src/main/java/compecon/math/CobbDouglasFunction.java:122-141 | a single non-fixed price curve sends the call to the inherited solver |
| CobbDouglas.CobbDouglasFunction.AnalyticalWithFixedPrices | src/main/java/compecon/math/CobbDouglasFunction.java:204-230 | the result has exactly one entry per input type |
| CobbDouglasProperties.FixedPricesCases | src/main/java/compecon/math/CobbDouglasFunction.java:209-227 | one NaN price among the input types makes every entry 0; no entry is NaN; a budget of 0 buys nothing; a positive price with a non-negative budget buys a non-negative amount |
| CobbDouglasProperties.FixedPriceAmounts | src/main/java/compecon/math/CobbDouglasFunction.java:195-202 | with every price finite and non-zero, input t gets exactly e_t * budget / p_t |
| CobbDouglasProperties.SpendingOfShares | src/main/java/compecon/math/CobbDouglasFunction.java:188-202 | buying the shares e_t * b / p_t costs b times the exponent sum, so exactly b when the exponents sum to 1 |
| CobbDouglasProperties.AllocationSpends | src/main/java/compecon/math/CobbDouglasFunction.java:188-226 | an unflagged allocation of b at non-zero finite prices gives every input a finite amount and costs b times the exponent sum, so exactly b when the exponents sum to 1 |
| CobbDouglasProperties.FixedPricesAsAllocation | src/main/java/compecon/math/CobbDouglasFunction.java:209-227 | without a NaN price among the input types, the fixed-price bundle is the unflagged allocation of the budget |
| CobbDouglasProperties.FixedPricesSpendBudget | src/main/java/compecon/math/CobbDouglasFunction.java:188-227 | at finite non-zero prices every amount is finite and the bundle costs the budget times the exponent sum, so exactly the budget when the exponents sum to 1 |
| CobbDouglasProperties.FixedPricesScaleInvariant | src/main/java/compecon/math/CobbDouglasFunction.java:221-223 | scaling every price and the budget by the same k > 0 leaves the fixed-price bundle unchanged |
| CobbDouglasProperties.ScaledPricesKeepNaN | src/main/java/compecon/math/CobbDouglasFunction.java:209-215 | some price is NaN exactly when some scaled price is |
| CobbDouglas.CobbDouglasFunction.AnalyticalWithMarketPrices | src/main/java/compecon/math/CobbDouglasFunction.java:325-361 | the result has exactly one entry per input type |
| CobbDouglasProperties.MarketPricesCases | src/main/java/compecon/math/CobbDouglasFunction.java:331-357 | one NaN c0 among the input types makes every entry 0, and no entry is NaN |
| CobbDouglasProperties.MarketPriceAmounts | src/main/java/compecon/math/CobbDouglasFunction.java:345-357 | with finite coefficients and a config for exactly the input types, the bundle allocates budget - S at the prices c0, where S is the exact sum of all c(-1) in any order |
| CobbDouglasProperties.MarketPricesSpendBudget | src/main/java/compecon/math/CobbDouglasFunction.java:345-357 | with a non-zero finite c0 for every input type and a finite c(-1) sum s, every amount is finite, and when the exponents sum to 1 the cost sum of c0_t * x_t plus s is exactly the budget; with configs for exactly the input types, ShiftSumInOtherOrder makes this the whole cost sum of (c0_t * x_t + c(-1)_t) |
| CobbDouglasProperties.ShiftedAllocationSpends | src/main/java/compecon/math/CobbDouglasFunction.java:351-355 | allocating budget - s at non-zero finite prices leaves, when the exponents sum to 1, exactly s of the budget unspent |
| CobbDouglasProperties.MarketPricesAsAllocation | src/main/java/compecon/math/CobbDouglasFunction.java:345-357 | with a finite shift sum s and no NaN c0, the bundle is the allocation of budget - s at the prices c0 |
| CobbDouglasProperties.MarketPricesWithoutShiftAreFixedPrices | src/main/java/compecon/math/CobbDouglasFunction.java:345-354 | when every supplied config has c(-1) = 0, the shifted-rational bundle equals the fixed-price bundle at the prices c0 |
| CobbDouglas.ShiftSum | src/main/java/compecon/math/CobbDouglasFunction.java:345-349 | the c(-1) sum, with Java's NaN and infinity rules, is finite when every summand is finite and NaN when some summand is NaN |
| CobbDouglasProperties.ShiftSumInOtherOrder | src/main/java/compecon/math/CobbDouglasFunction.java:345-349 | the c(-1) sum, accumulated in the configs' order, equals the exact sum over the input types in their order |
| CobbDouglasProperties.ShiftSumOfZeros | src/main/java/compecon/math/CobbDouglasFunction.java:345-349 | a sum of zero c(-1) coefficients is 0 |
| CobbDouglasProperties.ShiftSumOfFinite | src/main/java/compecon/math/CobbDouglasFunction.java:345-349 | a sum of finite c(-1) coefficients is their exact real sum |
| CobbDouglas.Allocation | src/main/java/compecon/math/CobbDouglasFunction.java:221-227 | the step both solvers share (also lines 351-358) has one entry per input type, never yields NaN because a NaN amount is clamped to 0, and gives 0 to every input when the NaN flag is set |
| CobbDouglasProperties.AllocationOfNothing | src/main/java/compecon/math/CobbDouglasFunction.java:222-225 | allocating an amount of 0 gives 0 to every input, whatever its price |
| CobbDouglasProperties.AllocationIsNonNegative | src/main/java/compecon/math/CobbDouglasFunction.java:222-223 | a non-negative amount at a positive finite price buys a finite, non-negative quantity |
| CobbDouglasProperties.AllocationBuysShares | src/main/java/compecon/math/CobbDouglasFunction.java:222-226 | an unflagged allocation of a finite amount b at non-zero finite prices gives input t exactly e_t * b / p_t |
| CobbDouglasProperties.AllocationIsScaleInvariant | src/main/java/compecon/math/CobbDouglasFunction.java:222-223 | scaling every price and the amount by the same k > 0 leaves the allocation unchanged |
| CobbDouglasProperties.FixedPriceExample | src/main/java/compecon/math/CobbDouglasFunction.java:221-227 | exponents 0.5 and 0.5, prices 2 and 4 and budget 100 give the bundle 25 and 12.5 |
| CobbDouglasProperties.FixedPriceNaNExample | src/main/java/compecon/math/CobbDouglasFunction.java:209-227 | the same inputs with one NaN price give the all-zero bundle |
| CobbDouglasProperties.MarketPriceExample | src/main/java/compecon/math/CobbDouglasFunction.java:345-357 | exponents 0.5 and 0.5, c0 = 1, c(-1) = 10 and 0, and budget 50 give 20 to each input |
| Sums.TotalReordered | src/main/java/compecon/math/CobbDouglasFunction.java:345-349 | a sum over distinct keys does not depend on the order in which the keys are visited |
| IterativeOptimizer.CalculateOutputMaximizingInputsIterative | src/main/java/compecon/math/ConvexFunction.java:54-134 | requires a positive numberOfIterations. A NaN price at quantity 0, when every input must be non-zero, gives 0 for every input type. Otherwise a budget not above 0 within tolerance gives 0 for every input type. With no input types the result is empty. Otherwise the result is the loop's bundle from the start state with slices of budget / (number of input types * numberOfIterations) |
| IterativeOptimizer.FindNaNPrice | src/main/java/compecon/math/ConvexFunction.java:60-68 | the scan reports a NaN flag exactly when some input type's price at quantity 0 is NaN |
| IterativeOptimizer.SeedInputs | src/main/java/compecon/math/ConvexFunction.java:99-105 | every input gets the seed 1e-7, and the money spent is the sum of seed times the price at the seed |
| IterativeOptimizer.Start | src/main/java/compecon/math/ConvexFunction.java:95-109 | the start state holds every input type, with the seed 1e-7 each when every input must be non-zero and 0 otherwise; nothing is spent without seeding, and with non-negative seed prices the seeding spend is non-negative |
| IterativeOptimizer.Fill | src/main/java/compecon/math/ConvexFunction.java:112-131 | the loop keeps the input types, never undoes an iteration, and ends only where the budget no longer exceeds the money spent or no candidate is selected |
| IterativeOptimizer.FillOfNoInputs | src/main/java/compecon/math/ConvexFunction.java:115-121 | with an empty bundle the selector has nothing to pick, so the loop stops at once whatever the slice |
| IterativeOptimizer.BuyWhileBudgetLeft | src/main/java/compecon/math/ConvexFunction.java:115-131 | the loop computes Fill: each iteration buys budget/N worth of the selected input at its marginal price, and the loop stops when the budget is spent or no candidate is selected |
| IterativeOptimizer.FillNeverLowersAmounts | src/main/java/compecon/math/ConvexFunction.java:122-128 | the loop never lowers an amount |
| IterativeOptimizer.FillSpendsSlices | src/main/java/compecon/math/ConvexFunction.java:125-129 | every iteration raises the money spent by exactly one slice |
| IterativeOptimizer.FillStops | src/main/java/compecon/math/ConvexFunction.java:115-131 | when the loop bought anything, the final spending is below the budget plus one slice |
| IterativeOptimizer.FillIterationsBounded | src/main/java/compecon/math/ConvexFunction.java:112-131 | with slices of budget / n and a non-negative starting spend, the loop runs at most n times |
| IterativeOptimizer.FillAfterPurchase | src/main/java/compecon/math/ConvexFunction.java:122-129 | the loop's update of the chosen entry and of the money spent is one step of Fill, and it leaves fewer slices under the budget |
| IterativeOptimizer.FillStep | src/main/java/compecon/math/ConvexFunction.java:115-131 | while the budget exceeds the money spent and the selector picks t, the loop continues from the purchase of one slice of t at its marginal price |
| Greedy.Buy | src/main/java/compecon/math/ConvexFunction.java:125-129 | one iteration changes only the chosen entry, keeps the input types and counts one more slice |
| Greedy.BuySpendsSlice | src/main/java/compecon/math/ConvexFunction.java:125-129 | one iteration buys exactly a slice's worth of the chosen input and adds exactly the slice to the money spent |
| Greedy.NumberOfSlices | src/main/java/compecon/math/ConvexFunction.java:112-113 | the number of slices is positive and at least the iteration count per input type |
| Greedy.Zeros | src/main/java/compecon/math/ConvexFunction.java:78-81 | the all-zero bundle maps exactly the input types to 0 |
| Greedy.Slice | src/main/java/compecon/math/ConvexFunction.java:112-113 | a positive budget gives a positive slice, and n slices add up to the budget |
| Greedy.SlicesLeftDecreases | src/main/java/compecon/math/ConvexFunction.java:115-131 | spending one more slice lowers the bound on the iterations left, so the loop terminates |
| Greedy.StepsWithinSlices | src/main/java/compecon/math/ConvexFunction.java:112-131 | when the last of k slices was bought below the budget, k is at most n |
| NatureOptimizer.CostsOfInputs.constructor | src/main/java/compecon/nature/math/ConvexFunction.java:19-20 | the cost map starts as the caller's map |
| NatureOptimizer.CalculateOutputMaximizingInputsUnderBudgetRestriction | src/main/java/compecon/nature/math/ConvexFunction.java:19-70 | NaN costs of the input types in the caller's map become 9999999999999. A budget equal to 0 within tolerance gives 0 for every input type. With no input types the result is empty. Otherwise the result is the loop's bundle from zero with the budget cut into 20 * (number of input types) slices, with near-zero amounts set to 0 |
| NatureOptimizer.ReplaceNaNCostsInPlace | src/main/java/compecon/nature/math/ConvexFunction.java:33-36 | the caller's cost map ends up equal to ReplaceNaNCosts of its old value |
| NatureOptimizer.ReplaceNaNCosts | src/main/java/compecon/nature/math/ConvexFunction.java:33-36 | the NaN cost of every input type becomes exactly 9999999999999, so no input type keeps a NaN cost; other costs and costs of other keys are untouched; the key set is unchanged; NaN-or-positive costs stay NaN-or-positive |
| NatureOptimizer.ReplaceNaNCostsIsIdempotent | src/main/java/compecon/nature/math/ConvexFunction.java:33-36 | replacing the NaN costs twice changes nothing more |
| NatureOptimizer.Fill | src/main/java/compecon/nature/math/ConvexFunction.java:43-61 | the loop keeps the input types, never undoes an iteration, and ends only where the budget no longer exceeds the money spent, no candidate is selected or the selected cost is NaN |
| NatureOptimizer.FillOfNoInputs | src/main/java/compecon/nature/math/ConvexFunction.java:45-49 | with an empty bundle the selector has nothing to pick, so the loop stops at once whatever the slice |
| NatureOptimizer.BuyWhileBudgetLeft | src/main/java/compecon/nature/math/ConvexFunction.java:45-61 | the loop computes Fill: each iteration buys budget/N worth of the selected input at its cost, and the loop breaks on no candidate or a NaN cost |
| NatureOptimizer.FillAfterPurchase | src/main/java/compecon/nature/math/ConvexFunction.java:52-56 | the loop's update of the chosen entry and of the money spent is one step of Fill, and it leaves fewer slices under the budget |
| NatureOptimizer.FillStep | src/main/java/compecon/nature/math/ConvexFunction.java:46-56 | while the budget exceeds the money spent and the selector picks t with a non-NaN cost, the loop continues from the purchase of one slice of t at that cost |
| NatureOptimizer.FillNeverLowersAmounts | src/main/java/compecon/nature/math/ConvexFunction.java:54-55 | amounts never decrease |
| NatureOptimizer.FillSpendsSlices | src/main/java/compecon/nature/math/ConvexFunction.java:52-56 | every iteration adds exactly budget/N to the money spent |
| NatureOptimizer.FillStops | src/main/java/compecon/nature/math/ConvexFunction.java:46-61 | when the loop bought anything, it stops below the budget plus one slice |
| NatureOptimizer.FillIterationsBounded | src/main/java/compecon/nature/math/ConvexFunction.java:43-61 | from nothing spent, the loop buys at most 20 * (number of input types) slices in total; one input may get all of them |
| NatureOptimizer.SnapToZero | src/main/java/compecon/nature/math/ConvexFunction.java:63-67 | the final pass keeps the bundle's keys |
| NatureOptimizer.SnapToZeroCases | src/main/java/compecon/nature/math/ConvexFunction.java:63-67 | every entry equal to 0 within tolerance becomes exactly 0 and every other entry is unchanged; the pass is idempotent and keeps non-negative bundles non-negative |
| NatureOptimizer.SnapEntriesToZero | src/main/java/compecon/nature/math/ConvexFunction.java:63-67 | the in-place pass over the entries computes SnapToZero |

## Left out

- IEEE-754 rounding, overflow to infinity and signed zero. Finite doubles are exact reals.
- `Math.pow` is a function parameter constrained only by `PowLaws`.
- The MathUtil tolerance comparisons are a parameter too. Only their soundness is assumed: `greater` implies `>`, `<=` implies `lesserEqual`, and `equal` is reflexive.
- findHighestPartialDerivatePerPrice and findLargestPartialDerivatePerPrice (AnalyticalConvexFunction and Function are not part of this model) are selector parameters. For the newer optimizer, the selector is assumed to pick a bundle key whose marginal price is positive and finite. For the older one, it picks a bundle key whose cost is NaN or positive and finite. Other picks are not modelled. With a negative finite price each iteration still adds exactly one slice to the money spent, so the loop still ends, but the model does not cover it. With a zero or infinite price the money spent becomes NaN (0 times infinity), and what the loop does next depends on MathUtil.greater with a NaN argument, which is not part of this model.
- The price-function classes (IPriceFunction, FixedPriceFunction, PriceFunctionConfig) are two small datatypes: a price function is a fixed price or a pair of function values (price and marginal price), and a PriceFunctionConfig is the pair of doubles c0 and c(-1).
- The inherited general solver of AnalyticalConvexFunction is a parameter of the dispatch.
- ConfigurationUtil and the wrapper that reads the iteration count from it are not part of this model.
- IterativeOptimizer.CalculateOutputMaximizingInputsIterative: does not model the Java int overflow of `number of input types * numberOfIterations`.
- IterativeOptimizer.CalculateOutputMaximizingInputsIterative: requires a price function for every input type. In the source a missing one is null, and the NaN scan throws a NullPointerException (src/main/java/compecon/math/ConvexFunction.java:63).
- IterativeOptimizer.CalculateOutputMaximizingInputsIterative: requires the seed prices to be finite (neither NaN nor infinite) when the source seeds, that is when every input must be non-zero, no price at 0 is NaN and the budget is above 0 within tolerance; a NaN or infinite seed cost is not modelled.
- NatureOptimizer.CalculateOutputMaximizingInputsUnderBudgetRestriction: requires a cost for every input type. In the source a missing cost is null, and unboxing it for the NaN test throws a NullPointerException (src/main/java/compecon/nature/math/ConvexFunction.java:34).
- CobbDouglas.CobbDouglasFunction.F: requires an amount for every input type. In the source a missing amount is null, and unboxing it throws a NullPointerException (src/main/java/compecon/math/CobbDouglasFunction.java:73).
- CobbDouglas.CobbDouglasFunction.PartialDerivative: requires an amount for every input type and an exponent for the input differentiated by. In the source a missing one is null and unboxing it throws a NullPointerException (src/main/java/compecon/math/CobbDouglasFunction.java:92, 101-104).
- CobbDouglas.CobbDouglasFunction.AnalyticalWithFixedPrices: requires a price for every input type. In the source a missing price is null, and the NaN scan throws a NullPointerException when unboxing it (src/main/java/compecon/math/CobbDouglasFunction.java:211).
- CobbDouglas.CobbDouglasFunction.CalculateOutputMaximizingInputs: requires a price function for every input type. On the fixed-price path the source throws at the same unboxing without one; the inherited path is a parameter here.
- CobbDouglas.CobbDouglasFunction.constructor: the source keeps a reference to the caller's exponent map (src/main/java/compecon/math/CobbDouglasFunction.java:55) and getExponents hands out that same map (lines 363-365). The model holds the exponents as an immutable value, so changes made later through an alias of the map are not seen.
- CobbDouglas.CobbDouglasFunction.AnalyticalWithMarketPrices: requires a config for every input type, because the source throws without one (see the defect above).
- The iteration order of result maps is not modelled. Results are plain maps; only the key order that the loops and selectors see is kept.
- The convergence of the greedy loops to the analytic optimum is not modelled. The code does not state it.
- Concurrency, persistence and the user interface are outside the allocation engine.
