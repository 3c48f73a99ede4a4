/** The bounds the `rng` command draws its random number between. */
module Rng {
  import opened Wrappers
  import opened JsNumbers
  import opened Chat

  /**
   * `(lowerBound, upperBound)`: with two numbers given both are parsed; with one,
   * it is the upper bound above the configured lower default; with none, both
   * defaults. `None` is NaN.
   */
  function RngBounds(cmatch: Captures, cfg: Config): (b: (Option<int>, Option<int>))
    ensures Truthy(Cap(cmatch, 2)) ==> b == (ParseInt(Cap(cmatch, 1)), ParseInt(Cap(cmatch, 2)))
    ensures !Truthy(Cap(cmatch, 2)) ==> b.0 == Some(cfg.rngLow)
    ensures !Truthy(Cap(cmatch, 2)) && Truthy(Cap(cmatch, 1)) ==> b.1 == ParseInt(Cap(cmatch, 1))
    ensures !Truthy(Cap(cmatch, 2)) && !Truthy(Cap(cmatch, 1)) ==> b.1 == Some(cfg.rngHigh)
  {
    if Truthy(Cap(cmatch, 2)) then
      (ParseInt(Cap(cmatch, 1)), ParseInt(Cap(cmatch, 2)))
    else
      (Some(cfg.rngLow), if Truthy(Cap(cmatch, 1)) then ParseInt(Cap(cmatch, 1)) else Some(cfg.rngHigh))
  }

  /** `rng lo hi` draws between the two numbers given. */
  lemma RngTwoNumbers(whole: string, lo: int, hi: int, cfg: Config)
    ensures RngBounds([Some(whole), Some(IntToString(lo)), Some(IntToString(hi))], cfg) == (Some(lo), Some(hi))
  {
    ParseIntOfNumeral(lo);
    ParseIntOfNumeral(hi);
  }

  /** `rng hi` draws between the configured lower bound and the number given. */
  lemma RngOneNumber(whole: string, hi: int, cfg: Config)
    ensures RngBounds([Some(whole), Some(IntToString(hi)), None], cfg) == (Some(cfg.rngLow), Some(hi))
  {
    ParseIntOfNumeral(hi);
  }

  /** Without numbers both configured bounds are used. */
  lemma RngNoNumbers(whole: string, cfg: Config)
    ensures RngBounds([Some(whole), None, None], cfg) == (Some(cfg.rngLow), Some(cfg.rngHigh))
  {
  }

  /** A second capture without a first gives a NaN lower bound: the code takes the first to be present. */
  lemma RngUpperWithoutLower(whole: string, hi: int, cfg: Config)
    ensures RngBounds([Some(whole), None, Some(IntToString(hi))], cfg) == (None, Some(hi))
  {
    ParseIntOfNumeral(hi);
    ParseIntUndefined();
  }
}
