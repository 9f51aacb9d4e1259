/** `parameter_check`: the validity test run on the simulation's parameters
    before anything else. It either returns normally or raises `ValueError`;
    the four `raise` sites carry different messages, modelled as four errors. */
module Parameters {

  /** A Python number as received: `m`, `n` and `N` must be `int` instances,
      so a float with an integral value is still rejected. */
  datatype Number = IntNumber(i: int) | FloatNumber(x: real)

  function Value(v: Number): real {
    match v
    case IntNumber(i) => i as real
    case FloatNumber(x) => x
  }

  /** The message of each `raise ValueError(...)`, in the order they are tried. */
  datatype ParameterError =
    | AlphaOutOfRange
    | BetaOutOfRange
    | GammaOutOfRange
    | SizeNotPositiveInteger

  datatype CheckResult = Passed | Raised(error: ParameterError)

  predicate IsProbability(p: real) {
    0.0 <= p <= 1.0
  }

  predicate IsPositiveInteger(v: Number) {
    v.IntNumber? && v.i > 0
  }

  predicate AlphaValid(alphaInfected: real, alphaRecovered: real) {
    IsProbability(alphaInfected) && IsProbability(alphaRecovered) && alphaInfected + alphaRecovered <= 1.0
  }

  predicate BetaValid(betaRecovered: real, betaDeath: real) {
    IsProbability(betaRecovered) && IsProbability(betaDeath) && betaRecovered + betaDeath <= 1.0
  }

  /** The parameter set the simulation accepts, stated positively. The radius
      `r` and the degree `k` are passed to the check but never examined. */
  predicate ValidParameters(m: Number, n: Number, N: Number,
                            alphaInfected: real, alphaRecovered: real,
                            betaRecovered: real, betaDeath: real, gamma: real)
  {
    AlphaValid(alphaInfected, alphaRecovered) && BetaValid(betaRecovered, betaDeath) &&
    IsProbability(gamma) &&
    IsPositiveInteger(m) && IsPositiveInteger(n) && IsPositiveInteger(N)
  }

  /** The check as written: four guards, each the negation of one group of
      conditions, tried in order; the first that holds raises. */
  function ParameterCheck(m: Number, n: Number, r: real, k: real,
                          alphaInfected: real, alphaRecovered: real,
                          betaRecovered: real, betaDeath: real, gamma: real,
                          N: Number): (res: CheckResult)
    ensures res == Passed <==>
      ValidParameters(m, n, N, alphaInfected, alphaRecovered, betaRecovered, betaDeath, gamma)
    ensures res == Raised(AlphaOutOfRange) <==> !AlphaValid(alphaInfected, alphaRecovered)
    ensures res == Raised(BetaOutOfRange) <==>
      AlphaValid(alphaInfected, alphaRecovered) && !BetaValid(betaRecovered, betaDeath)
    ensures res == Raised(GammaOutOfRange) <==>
      AlphaValid(alphaInfected, alphaRecovered) && BetaValid(betaRecovered, betaDeath) &&
      !IsProbability(gamma)
    ensures res == Raised(SizeNotPositiveInteger) <==>
      AlphaValid(alphaInfected, alphaRecovered) && BetaValid(betaRecovered, betaDeath) &&
      IsProbability(gamma) &&
      !(IsPositiveInteger(m) && IsPositiveInteger(n) && IsPositiveInteger(N))
  {
    if alphaInfected < 0.0 || alphaInfected > 1.0 || alphaRecovered < 0.0 || alphaRecovered > 1.0
       || alphaRecovered + alphaInfected > 1.0 then
      Raised(AlphaOutOfRange)
    else if betaRecovered < 0.0 || betaRecovered > 1.0 || betaDeath < 0.0 || betaDeath > 1.0
       || betaRecovered + betaDeath > 1.0 then
      Raised(BetaOutOfRange)
    else if gamma < 0.0 || gamma > 1.0 then
      Raised(GammaOutOfRange)
    else if Value(m) <= 0.0 || Value(n) <= 0.0 || Value(N) <= 0.0
       || !m.IntNumber? || !n.IntNumber? || !N.IntNumber? then
      Raised(SizeNotPositiveInteger)
    else
      Passed
  }
}
