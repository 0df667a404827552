/** Java's double as the calculator observes it: NaN, the two infinities, or a
    finite value, with Java's comparison operators (every comparison with NaN is
    false). The finite values are reals; the rounding of IEEE 754 arithmetic, the
    decimal text of a double and Double.parseDouble are not modelled here but
    passed in as a Jdk value. */
module Doubles {
  import opened Wrappers

  datatype Double = NaN | PosInf | NegInf | Finite(v: real)

  const ZERO: Double := Finite(0.0)

  /** Double.MIN_NORMAL, 2^-1022: the smallest positive normal double. */
  const MIN_NORMAL: real := 1.0 / 44942328371557897693232629769725618340449424473557664318357520289433168951375240783177119330601884005280028469967848339414697442203604155623211857659868531094441973356216371319075554900311523529863270738021251442209537670585615720368478277635206809290837627671146574559986811484619929076208839082406056034304.0

  /** Double.MAX_VALUE, (2^53 - 1) * 2^971. */
  const MAX_VALUE: real := 179769313486231570814527423731704356798070567525844996598917476803157260780028538760589558632766878171540458953514382464234321326889464182768467546703537516986049910576551282076245490090389328944075868508455133942304583236903222948165808559332123348274797826204144723168738177180919299881250404026184124858368.0

  /** 2^53 - 1, the largest integer below which every integer is a double. */
  const MAX_SAFE_INTEGER: real := 9007199254740991.0

  predicate IsInfinite(d: Double) {
    d.PosInf? || d.NegInf?
  }

  /** Math.abs */
  function Abs(d: Double): (r: Double)
    ensures r.NaN? <==> d.NaN?
    ensures IsInfinite(d) <==> r == PosInf
    ensures d.Finite? ==> r.Finite? && r.v >= 0.0 && (r.v == d.v || r.v == -d.v)
  {
    match d
    case NaN => NaN
    case PosInf => PosInf
    case NegInf => PosInf
    case Finite(x) => Finite(if x < 0.0 then -x else x)
  }

  /** a < b */
  predicate Less(a: Double, b: Double) {
    match (a, b)
    case (Finite(x), Finite(y)) => x < y
    case (NegInf, Finite(_)) => true
    case (NegInf, PosInf) => true
    case (Finite(_), PosInf) => true
    case _ => false
  }

  /** a == b (0.0 and -0.0 are one value here) */
  predicate Equal(a: Double, b: Double) {
    !a.NaN? && a == b
  }

  /** a <= b */
  predicate LessEq(a: Double, b: Double) {
    Less(a, b) || Equal(a, b)
  }

  /** A value the calculator treats as a number: neither NaN nor infinite. */
  predicate IsFinite(d: Double) {
    d.Finite?
  }

  /** Java's comparisons order the non-NaN doubles totally and leave NaN unordered. */
  lemma CompareTotal(a: Double, b: Double)
    ensures a.NaN? || b.NaN? ==> !Less(a, b) && !Less(b, a) && !Equal(a, b)
    ensures !a.NaN? && !b.NaN? ==> (Less(a, b) || Equal(a, b) || Less(b, a))
    ensures !(Less(a, b) && Less(b, a)) && !(Less(a, b) && Equal(a, b))
  {
  }

  /** The JDK behaviour the calculator relies on but which is not part of this model,
      as functions: the text and parsing of doubles, IEEE 754 arithmetic and
      BigDecimal rounding.
      - parseDouble: Double.parseDouble, or the message of its NumberFormatException
      - valueOf: Double.toString, also what "" + d produces
      - fixed: String.format("%.Nf", d) for N digits after the point
      - plus, minus, times, quotient: a + b, a - b, a * b, a / b
      - pow, sqrt: Math.pow, Math.sqrt
      - halfUp: new BigDecimal(Double.toString(d)).setScale(N, HALF_UP).doubleValue(),
        or the message of the NumberFormatException the constructor throws */
  datatype Jdk = Jdk(
    parseDouble: string -> Result<Double, string>,
    valueOf: Double -> string,
    fixed: (Double, nat) -> string,
    plus: (Double, Double) -> Double,
    minus: (Double, Double) -> Double,
    times: (Double, Double) -> Double,
    quotient: (Double, Double) -> Double,
    pow: (Double, Double) -> Double,
    sqrt: Double -> Double,
    halfUp: (Double, nat) -> Result<Double, string>)
}
