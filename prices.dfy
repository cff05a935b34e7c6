/**
 * Price functions as the allocation engine consumes them. The price-function
 * classes themselves are not part of this model: a fixed price is a tagged
 * constant, any other price curve is a pair of function values.
 */
module Prices {
  import opened Doubles

  datatype PriceFunction =
    | FixedPrice(price: Double)
    | PriceCurve(priceAt: real -> Double, marginalPriceAt: real -> Double)
  {
    /** The price per unit when buying the given quantity. */
    function GetPrice(quantity: real): Double {
      match this
      case FixedPrice(p) => p
      case PriceCurve(f, _) => f(quantity)
    }

    /** The price of one more unit on top of the given quantity. */
    function GetMarginalPrice(quantity: real): Double {
      match this
      case FixedPrice(p) => p
      case PriceCurve(_, f) => f(quantity)
    }
  }

  /**
   * The shifted-rational price curve price(x) = c0 + c(-1) / x, given by its
   * two coefficients.
   */
  datatype PriceFunctionConfig = PriceFunctionConfig(coefficientXPower0: Double, coefficientXPowerMinus1: Double)
}
