/**
 * What the two iterative optimizers share: a bundle bought slice by slice.
 * Each iteration picks one input type, buys one slice of the budget's worth
 * of it at its unit price and adds the cost to the money spent.
 */
module Greedy {

  datatype Option<T> = None | Some(value: T)

  /** The state of a purchase loop: the bundle so far, the money spent, and the number of slices bought. */
  datatype Purchase<T> = Purchase(bundle: map<T, real>, spent: real, steps: nat)

  /** The bundle that assigns 0 to every input type. */
  function Zeros<T>(types: seq<T>): (r: map<T, real>)
    ensures r.Keys == set t | t in types
    ensures forall t :: t in r ==> r[t] == 0.0
  {
    map t | t in types :: 0.0
  }

  /**
   * One loop iteration: t gains slice / price units and the money spent grows
   * by price times that amount; no other input changes.
   */
  function Buy<T>(s: Purchase<T>, t: T, slice: real, price: real): (r: Purchase<T>)
    requires t in s.bundle && price > 0.0
    ensures r.bundle.Keys == s.bundle.Keys
    ensures forall u :: u in s.bundle && u != t ==> r.bundle[u] == s.bundle[u]
    ensures r.steps == s.steps + 1
  {
    var amount := slice / price;
    Purchase(s.bundle[t := s.bundle[t] + amount], s.spent + price * amount, s.steps + 1)
  }

  /** One iteration as the loops write it: the update of t's entry and of the money spent. */
  lemma BuyIsUpdate<T>(s: Purchase<T>, t: T, slice: real, price: real, amount: real)
    requires t in s.bundle && price > 0.0 && amount == slice / price
    ensures Buy(s, t, slice, price) == Purchase(s.bundle[t := s.bundle[t] + amount], s.spent + price * amount, s.steps + 1)
  {
  }

  /** One iteration buys exactly one slice's worth of t and adds exactly the slice to the money spent. */
  lemma BuySpendsSlice<T>(s: Purchase<T>, t: T, slice: real, price: real)
    requires t in s.bundle && price > 0.0
    ensures price * (Buy(s, t, slice, price).bundle[t] - s.bundle[t]) == slice
    ensures Buy(s, t, slice, price).spent == s.spent + slice
  {
    PriceTimesQuotient(price, slice, slice / price);
  }

  /** The number of slices the budget is divided into: a number per input type, for every input type. */
  function NumberOfSlices(inputTypes: int, perInputType: int): (n: int)
    requires inputTypes > 0 && perInputType > 0
    ensures n > 0
    ensures n >= perInputType
  {
    inputTypes * perInputType
  }

  /** The money one iteration spends: the budget divided into n equal slices. */
  function Slice(budget: real, n: int): (slice: real)
    requires n > 0
    ensures budget > 0.0 ==> slice > 0.0
    ensures slice * n as real == budget
  {
    budget / n as real
  }

  /** A bound on the iterations still possible before the money spent reaches the budget. */
  function SlicesLeft(budget: real, spent: real, slice: real): (n: nat) {
    if slice > 0.0 && budget > spent then ((budget - spent) / slice).Floor + 1 else 0
  }

  /** Spending one more slice leaves fewer slices under the budget. */
  lemma SlicesLeftDecreases(budget: real, spent: real, slice: real, next: real)
    requires slice > 0.0 && budget > spent && next == spent + slice
    ensures SlicesLeft(budget, next, slice) < SlicesLeft(budget, spent, slice)
  {
    var x := (budget - spent) / slice;
    assert x * slice == budget - spent;
    assert (x - 1.0) * slice == budget - (spent + slice);
    QuotientOfProduct(budget - (spent + slice), slice, x - 1.0);
    assert (x - 1.0).Floor == x.Floor - 1;
  }

  /** Buying slice / price units at that price costs exactly the slice. */
  lemma PriceTimesQuotient(price: real, slice: real, amount: real)
    requires price != 0.0 && amount == slice / price
    ensures price * amount == slice
  {
  }

  lemma QuotientOfProduct(a: real, b: real, c: real)
    requires b != 0.0 && a == c * b
    ensures a / b == c
  {
  }

  /**
   * The k-th of k slices was bought while less than the budget was spent, so
   * with slice = budget / n and a non-negative starting spend at most n
   * slices are bought.
   */
  lemma StepsWithinSlices(spent0: real, k: nat, slice: real, budget: real, n: nat)
    requires n > 0 && slice == Slice(budget, n) && slice > 0.0
    requires spent0 >= 0.0
    requires k > 0 ==> spent0 + (k - 1) as real * slice < budget
    ensures k <= n
  {
  }
}
