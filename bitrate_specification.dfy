/** The "Bitrate" custom-format rule: a release matches when its size per hour
    of runtime lies in the window (Min, Max]. The thresholds arrive already
    converted to bytes (`Min.Gigabytes()`, `Max.Gigabytes()`); the arithmetic
    is C#'s unchecked `long` and `int` arithmetic. */
module BitRateSpecification {
  import opened Common

  const Order := 8
  const ImplementationName := "Bitrate"

  /** The parts of a `CustomFormatInput` the rule reads: the release size in
      bytes, the episode numbers it covers and the series runtime in minutes. */
  datatype Input = Input(size: Int64, episodeNumbers: seq<Int32>, runtime: Int32)

  /** A release covers at least one episode, even when it names none. */
  function EpisodeCount(episodeNumbers: seq<Int32>): (n: Int32)
    requires |episodeNumbers| <= Int32Max
    ensures n >= 1
    ensures episodeNumbers != [] ==> n == |episodeNumbers|
  {
    if |episodeNumbers| > 0 then |episodeNumbers| else 1
  }

  /** `Series.Runtime * numberOfEpisodes`, an unchecked `int` product. */
  function TotalRuntime(input: Input): (t: Int32)
    requires |input.episodeNumbers| <= Int32Max
    ensures Int32Min <= input.runtime * EpisodeCount(input.episodeNumbers) <= Int32Max ==> t == input.runtime * EpisodeCount(input.episodeNumbers)
  {
    Wrap32(input.runtime * EpisodeCount(input.episodeNumbers))
  }

  /** `(size * 60) / totalRuntime`: bytes per hour, truncated toward zero. */
  function BytesPerHour(input: Input): (r: Outcome<Int64>)
    requires |input.episodeNumbers| <= Int32Max
    ensures r == Threw(DivideByZero) <==> TotalRuntime(input) == 0
    ensures r == Threw(Overflow) <==> TotalRuntime(input) == -1 && Wrap64(input.size * 60) == Int64Min
    ensures r.Threw? ==> r.fault == DivideByZero || r.fault == Overflow
    ensures 0 <= input.size * 60 <= Int64Max && TotalRuntime(input) > 0 ==>
      r == Returned((input.size * 60) / TotalRuntime(input))
  {
    var scaled := Wrap64(input.size * 60);
    var total := TotalRuntime(input);
    if total == 0 then Threw(DivideByZero)
    else if scaled == Int64Min && total == -1 then Threw(Overflow) // the quotient 2^63 does not fit in a long
    else
      TruncDivFits(scaled, total);
      Returned(TruncDiv(scaled, total))
  }

  /** `IsSatisfiedByWithoutNegate`. */
  function IsSatisfiedByWithoutNegate(minBytes: Int64, maxBytes: Int64, input: Input): (r: Outcome<bool>)
    requires |input.episodeNumbers| <= Int32Max
    ensures r.Threw? <==> BytesPerHour(input).Threw?
    ensures r.Threw? ==> r.fault == BytesPerHour(input).fault
    ensures r.Returned? ==> (r.value <==> minBytes < BytesPerHour(input).value <= maxBytes)
  {
    match BytesPerHour(input)
    case Threw(f) => Threw(f)
    case Returned(rate) => Returned(rate > minBytes && rate <= maxBytes)
  }

  lemma MulMonotone(a: int, b: int, t: int)
    requires a <= b && t > 0
    ensures a * t <= b * t
  {
    assert b * t - a * t == (b - a) * t;
  }

  /** For a positive divisor, `s / t > m` says that `s` reaches `(m + 1) * t`. */
  lemma QuotientAbove(s: int, t: int, m: int)
    requires s >= 0 && t > 0
    ensures s / t > m <==> (m + 1) * t <= s
  {
    var q := s / t;
    assert s == q * t + s % t;
    if q > m {
      MulMonotone(m + 1, q, t);
    } else {
      MulMonotone(q + 1, m + 1, t);
      assert (q + 1) * t == q * t + t;
    }
  }

  /** Without wrap-around the rule is a window on the scaled size, with no
      division: it matches exactly when (Min + 1) * T <= 60 * size < (Max + 1) * T
      for the total runtime T. */
  lemma SatisfiedIffWithinWindow(minBytes: Int64, maxBytes: Int64, input: Input)
    requires |input.episodeNumbers| <= Int32Max
    requires 0 <= input.size * 60 <= Int64Max
    requires 0 < input.runtime * EpisodeCount(input.episodeNumbers) <= Int32Max
    ensures var t := input.runtime * EpisodeCount(input.episodeNumbers);
      && IsSatisfiedByWithoutNegate(minBytes, maxBytes, input).Returned?
      && (IsSatisfiedByWithoutNegate(minBytes, maxBytes, input).value <==>
            (minBytes + 1) * t <= input.size * 60 < (maxBytes + 1) * t)
  {
    var t := input.runtime * EpisodeCount(input.episodeNumbers);
    assert TotalRuntime(input) == t;
    QuotientAbove(input.size * 60, t, minBytes);
    QuotientAbove(input.size * 60, t, maxBytes);
  }

  /** Widening the window never loses a match. */
  lemma WiderWindowKeepsMatch(minBytes: Int64, maxBytes: Int64, minBytes': Int64, maxBytes': Int64, input: Input)
    requires |input.episodeNumbers| <= Int32Max
    requires minBytes' <= minBytes && maxBytes <= maxBytes'
    requires IsSatisfiedByWithoutNegate(minBytes, maxBytes, input) == Returned(true)
    ensures IsSatisfiedByWithoutNegate(minBytes', maxBytes', input) == Returned(true)
  {
  }

  /** A release that names no episode is rated as a single episode. */
  lemma NoEpisodesCountsAsOne(minBytes: Int64, maxBytes: Int64, size: Int64, episode: Int32, runtime: Int32)
    ensures IsSatisfiedByWithoutNegate(minBytes, maxBytes, Input(size, [], runtime))
         == IsSatisfiedByWithoutNegate(minBytes, maxBytes, Input(size, [episode], runtime))
  {
  }

  /** A series whose runtime is unknown (0) makes the rule throw. */
  lemma ZeroRuntimeThrows(minBytes: Int64, maxBytes: Int64, input: Input)
    requires |input.episodeNumbers| <= Int32Max
    requires input.runtime == 0
    ensures IsSatisfiedByWithoutNegate(minBytes, maxBytes, input) == Threw(DivideByZero)
  {
  }

  const MinMessage := "'Min' must be greater than or equal to '0'."

  /** `BitrateSpecificationValidator`: Min >= 0 and Max > Min. `show` formats
      the number FluentValidation puts in the message. */
  function Validate(min: real, max: real, show: real -> string): (r: seq<ValidationFailure>)
    ensures r == [] <==> 0.0 <= min && min < max
    ensures forall i :: 0 <= i < |r| ==> r[i].propertyName == "Min" || r[i].propertyName == "Max"
    ensures (exists i :: 0 <= i < |r| && r[i].propertyName == "Min") <==> min < 0.0
    ensures (exists i :: 0 <= i < |r| && r[i].propertyName == "Max") <==> max <= min
  {
    var r := (if min >= 0.0 then [] else [ValidationFailure("Min", MinMessage, None)])
      + (if max > min then [] else [ValidationFailure("Max", "'Max' must be greater than '" + show(min) + "'.", None)]);
    assert min < 0.0 ==> r[0].propertyName == "Min";
    assert max <= min ==> r[|r| - 1].propertyName == "Max";
    r
  }
}
