/** The command-line program (src/bin.rs): from the target NAME and the
    optional `--in RANGE`, choose the search window `[0, end)`, reject a
    window shorter than the target, and estimate how many keys must be tried.
    Argument parsing is reduced to its outcome (`RangeArg`); the parallel
    search loop and the printing are outside the model. */
module Cli {
  import opened Rust
  import opened Ascii
  import Library

  /** `--in RANGE` after `range.parse::<usize>()`: not given, a number, or
      text that is not a `usize`. */
  datatype RangeArg = NoRange | RangeValue(n: usize) | RangeUnparsable

  /** Why `main` returns before the search starts. */
  datatype CliError =
    | RangeNotANumber                            // the `?` on `range.parse()`
    | RangeTooShort(end: nat, len: nat)          // "range {} is too short for len={}"
    | RangeBeyondKey(end: nat, keyLen: nat)      // only in ConfigureChecked
    | Panicked(fault: Fault)

  datatype Result<+T> = Ok(value: T) | Err(error: CliError) {
    predicate IsFailure() { Err? }

    function PropagateFailure<U>(): Result<U>
      requires Err?
    {
      Err(error)
    }

    function Extract(): T
      requires Ok?
    {
      value
    }
  }

  function Lift<T>(c: Checked<T>): Result<T>
  {
    match c
    case Value(v) => Ok(v)
    case Panic(f) => Err(Panicked(f))
  }

  /** The window used when no RANGE is given: 10 characters, or 10 more than
      the target when the target is longer than that. */
  const DEFAULT_RANGE: nat := 10

  /** What `main` hands to the search: the target, unchanged, and the window
      `[windowStart, windowEnd)` of the encoded public key it must occur in. */
  datatype Plan = Plan(prefix: string, windowStart: nat, windowEnd: nat, expected: u64)

  /** The window end, from RANGE or from the default rule. */
  function WindowEnd(len: nat, range: RangeArg): (r: Result<usize>)
    requires len <= ISIZE_MAX
    ensures r.Err? <==> range.RangeUnparsable?
    ensures r.Err? ==> r.error == RangeNotANumber
    ensures range.RangeValue? ==> r == Ok(range.n)
    ensures range.NoRange? ==> r.Ok? && len <= r.value && DEFAULT_RANGE <= r.value <= len + DEFAULT_RANGE
  {
    match range
    case RangeUnparsable => Err(RangeNotANumber)
    case RangeValue(n) => Ok(n)
    case NoRange => Ok(if len <= DEFAULT_RANGE then DEFAULT_RANGE else len + DEFAULT_RANGE)
  }

  /** Everything `main` does between reading its arguments and starting the
      search, with the arithmetic of an overflow-checked build:
      `offsets = (1 + end - len) as u64` and
      `expected = 2u64.pow(5).pow(len as u32) / offsets`. */
  function Configure(prefix: string, range: RangeArg): (r: Result<Plan>)
    requires |prefix| <= ISIZE_MAX
    ensures range.RangeUnparsable? ==> r == Err(RangeNotANumber)
    ensures r.Ok? ==>
              && r.value.prefix == prefix
              && r.value.windowStart == 0
              && |prefix| <= r.value.windowEnd
    ensures r.Ok? ==> r.value.expected == Pow(32, AsU32(|prefix|)) / (1 + r.value.windowEnd - |prefix|)
  {
    var len := |prefix|;
    var end :- WindowEnd(len, range);
    if end < len then
      Err(RangeTooShort(end, len))
    else
      var sum :- Lift(CheckedAdd(1, end));
      // end >= len, so the subtraction cannot underflow and offsets >= 1.
      var offsets: u64 := sum - len;
      var power :- Lift(CheckedPow(32, AsU32(len)));
      Ok(Plan(prefix, 0, end, power / offsets))
  }

  /** With no RANGE and a target of at most 10 characters the window is
      `[0, 10)` and the configuration is always accepted. */
  lemma DefaultWindowShort(prefix: string)
    requires |prefix| <= DEFAULT_RANGE
    ensures Configure(prefix, NoRange).Ok?
    ensures Configure(prefix, NoRange).value.windowEnd == DEFAULT_RANGE
  {
    Pow32Fits(|prefix|);
  }

  /** With no RANGE and a longer target the window is `[0, len + 10)`; the
      estimate then needs `32^len` in a u64, which holds only up to 12
      characters (counting the length modulo 2^32, as `len as u32` does). */
  lemma DefaultWindowLong(prefix: string)
    requires DEFAULT_RANGE < |prefix| <= ISIZE_MAX
    ensures Configure(prefix, NoRange).Ok? <==> AsU32(|prefix|) <= 12
    ensures Configure(prefix, NoRange).Ok? ==>
              Configure(prefix, NoRange).value.windowEnd == |prefix| + DEFAULT_RANGE
    ensures Configure(prefix, NoRange).Err? ==>
              Configure(prefix, NoRange).error == Panicked(MulOverflow)
  {
    Pow32Fits(AsU32(|prefix|));
  }

  /** The "too short" error is raised exactly for an explicit RANGE below the
      target's length: the default window never triggers it, and no upper
      bound is checked. */
  lemma TooShortIff(prefix: string, range: RangeArg)
    requires |prefix| <= ISIZE_MAX
    ensures (Configure(prefix, range).Err? && Configure(prefix, range).error.RangeTooShort?) <==>
            (range.RangeValue? && range.n < |prefix|)
    ensures range.RangeValue? && range.n < |prefix| ==>
              Configure(prefix, range) == Err(RangeTooShort(range.n, |prefix|))
  {
  }

  /** Every explicit RANGE from the target's length up to `usize::MAX - 1` is
      accepted when the estimate fits, however far past the 44 characters of
      a key it reaches. */
  lemma NoUpperBound(prefix: string, n: usize)
    requires |prefix| <= n < USIZE_MAX && |prefix| <= 12
    ensures Configure(prefix, RangeValue(n)).Ok?
    ensures Configure(prefix, RangeValue(n)).value.windowEnd == n
  {
    Pow32Fits(|prefix|);
  }

  /** The complete outcome: which inputs are accepted, and which error every
      other input gets, in the order `main` meets them. */
  lemma ConfigureOutcome(prefix: string, range: RangeArg)
    requires |prefix| <= ISIZE_MAX && !range.RangeUnparsable?
    ensures var end, r := WindowEnd(|prefix|, range).value, Configure(prefix, range);
            && (end < |prefix| ==> r == Err(RangeTooShort(end, |prefix|)))
            && (|prefix| <= end == USIZE_MAX ==> r == Err(Panicked(AddOverflow)))
            && (|prefix| <= end < USIZE_MAX && AsU32(|prefix|) > 12 ==> r == Err(Panicked(MulOverflow)))
            && (|prefix| <= end < USIZE_MAX && AsU32(|prefix|) <= 12 ==> r.Ok? && r.value.windowEnd == end)
  {
    Pow32Fits(AsU32(|prefix|));
  }

  /** On an accepted configuration `offsets` is at least 1, the estimate
      times `offsets` brackets `32^len` from below, and the estimate never
      exceeds `32^len`. */
  lemma ExpectedBrackets(prefix: string, range: RangeArg)
    requires |prefix| <= ISIZE_MAX && Configure(prefix, range).Ok?
    ensures var p := Configure(prefix, range).value;
            var offsets, power := 1 + p.windowEnd - |prefix|, Pow(32, AsU32(|prefix|));
            && offsets >= 1
            && p.expected * offsets <= power < (p.expected + 1) * offsets
            && p.expected <= Pow(32, |prefix|)
  {
    var p := Configure(prefix, range).value;
    var offsets, power := 1 + p.windowEnd - |prefix|, Pow(32, AsU32(|prefix|));
    DivisionBounds(power, offsets);
    QuotientAtMost(p.expected, offsets, power);
    PowMonotone(32, AsU32(|prefix|), |prefix|);
  }

  // ---------------------------------------------------------------------
  // Findings: the configuration accepts windows the rest of the program
  // cannot handle.

  /** RANGE = `usize::MAX` passes the length check, and then `1 + end`
      overflows: the program panics instead of searching, whatever the target. */
  lemma MaxRangeOverflows(prefix: string)
    requires |prefix| <= ISIZE_MAX
    ensures Configure(prefix, RangeValue(USIZE_MAX)) == Err(Panicked(AddOverflow))
  {
  }

  /** A target of 13 or more characters with no RANGE is accepted by the
      length check, and then `32^len` overflows the u64 estimate. */
  lemma LongDefaultTargetOverflows(prefix: string)
    requires 13 <= |prefix| < U32_LIMIT
    ensures Configure(prefix, NoRange) == Err(Panicked(MulOverflow))
  {
    DefaultWindowLong(prefix);
  }

  /** A window reaching past the 44 characters of an encoded key is accepted,
      and then the window test panics on every key: the search can never
      succeed. */
  lemma WindowPastKeyAccepted(prefix: string, n: usize, publicText: string)
    requires |prefix| <= 12 && KEY_TEXT_LEN < n < USIZE_MAX && IsKeyText(publicText)
    ensures Configure(prefix, RangeValue(n)).Ok?
    ensures Library.Trial(prefix, Configure(prefix, RangeValue(n)).value.windowEnd, publicText) ==
            Panic(SliceOutOfRange)
  {
    NoUpperBound(prefix, n);
  }

  // ---------------------------------------------------------------------
  // The configuration as evidently intended.

  /** A plan whose estimate is an unbounded integer. */
  datatype CheckedPlan = CheckedPlan(prefix: string, windowStart: nat, windowEnd: nat, expected: nat)

  /** The corrected plan for a window `[0, end)` that holds the target and
      fits the key: `end - len + 1` offsets, and the estimate computed
      without a width limit. */
  function KeyWindowPlan(prefix: string, end: nat): (p: CheckedPlan)
    requires |prefix| <= end <= KEY_TEXT_LEN
    ensures p.prefix == prefix && p.windowStart == 0 && p.windowEnd == end
    ensures p.expected * (end - |prefix| + 1) <= Pow(32, |prefix|)
  {
    var offsets := end - |prefix| + 1;
    DivisionBounds(Pow(32, |prefix|), offsets);
    CheckedPlan(prefix, 0, end, Pow(32, |prefix|) / offsets)
  }

  /** The configuration with the window bounded by the key's encoded length:
      the default window is capped at 44 characters, an explicit RANGE past
      44 is rejected, the number of offsets is `end - len + 1`, and the
      estimate is computed without a width limit. */
  function ConfigureChecked(prefix: string, range: RangeArg): (r: Result<CheckedPlan>)
    requires |prefix| <= ISIZE_MAX
    ensures r.Err? <==>
              || range.RangeUnparsable?
              || (range.RangeValue? && !(|prefix| <= range.n <= KEY_TEXT_LEN))
              || (range.NoRange? && |prefix| > KEY_TEXT_LEN)
    ensures r.Err? ==> !r.error.Panicked?
    ensures r.Ok? ==> |prefix| <= r.value.windowEnd <= KEY_TEXT_LEN
    ensures r.Ok? && range.RangeValue? ==> r.value.windowEnd == range.n
    ensures r.Ok? && range.NoRange? ==>
              r.value.windowEnd ==
                if |prefix| <= DEFAULT_RANGE then DEFAULT_RANGE
                else if |prefix| + DEFAULT_RANGE <= KEY_TEXT_LEN then |prefix| + DEFAULT_RANGE
                else KEY_TEXT_LEN
    ensures r.Ok? ==>
              && r.value.prefix == prefix
              && r.value.windowStart == 0
              && r.value.expected == Pow(32, |prefix|) / (r.value.windowEnd - |prefix| + 1)
  {
    var len := |prefix|;
    var requested :- WindowEnd(len, range);
    var end := if range.NoRange? && requested > KEY_TEXT_LEN then KEY_TEXT_LEN else requested;
    if end > KEY_TEXT_LEN then
      Err(RangeBeyondKey(end, KEY_TEXT_LEN))
    else if end < len then
      Err(RangeTooShort(end, len))
    else
      Ok(KeyWindowPlan(prefix, end))
  }

  /** Every plan the corrected configuration accepts runs the window test
      without a panic on every encoded key. */
  lemma CheckedPlanTrialsDefined(prefix: string, range: RangeArg, publicText: string)
    requires |prefix| <= ISIZE_MAX && ConfigureChecked(prefix, range).Ok? && IsKeyText(publicText)
    ensures Library.Trial(prefix, ConfigureChecked(prefix, range).value.windowEnd, publicText).Value?
  {
    Library.TrialOnKeyText(prefix, ConfigureChecked(prefix, range).value.windowEnd, publicText);
  }

  /** Wherever the program as written accepts a window that fits the key, the
      corrected configuration chooses the same window and the same estimate. */
  lemma CheckedAgreesWithinKey(prefix: string, range: RangeArg)
    requires |prefix| <= ISIZE_MAX && Configure(prefix, range).Ok?
    requires Configure(prefix, range).value.windowEnd <= KEY_TEXT_LEN
    ensures ConfigureChecked(prefix, range).Ok?
    ensures var p, q := Configure(prefix, range).value, ConfigureChecked(prefix, range).value;
            q.windowStart == p.windowStart && q.windowEnd == p.windowEnd && q.expected == p.expected
  {
    assert !range.RangeUnparsable?;
    ConfigureOutcome(prefix, range);
  }
}
