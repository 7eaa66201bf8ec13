/** The first, single-file program (src/main.rs): the target comes from the
    first command-line argument, is lowercased once, an expected number of
    trials is computed, and every trial key is accepted when the first ten
    characters of its encoded public key, lowercased, contain the target.
    Reading the argument, key generation, encoding, the parallel loop and the
    printing are outside the model. */
module Prototype {
  import opened Rust
  import opened Ascii

  /** `WITHIN`: the window is the first ten characters of the public key. */
  const WITHIN: nat := 10

  /** What the program has computed before the first trial. */
  datatype Run = Run(prefix: string, expected: u64)

  /** Lowercase the target, then `offsets = WITHIN - len` and
      `expected = 32^len / offsets` in u64 arithmetic. Only a target shorter
      than the window gets this far: a longer one makes the subtraction
      underflow and one of exactly ten characters makes `offsets` zero. */
  function Start(arg: string): (r: Checked<Run>)
    requires |arg| <= ISIZE_MAX
    ensures r.Value? <==> |arg| < WITHIN
    ensures |arg| > WITHIN ==> r == Panic(SubUnderflow)
    ensures |arg| == WITHIN ==> r == Panic(DivByZero)
    ensures r.Value? ==> r.value.prefix == Lower(arg)
    ensures r.Value? ==>
              var offsets := WITHIN - |arg|;
              r.value.expected * offsets <= Pow(32, |arg|) < (r.value.expected + 1) * offsets
  {
    var prefix := Lower(arg);
    var len := |prefix|;
    var offsets :- CheckedSub(WITHIN, len);
    // Past the subtraction len <= 10, so `pow` cannot overflow here.
    Pow32Fits(AsU32(len));
    var power: u64 := Pow(32, AsU32(len));
    var expected :- CheckedDiv(power, offsets);
    Value(Run(prefix, expected))
  }

  /** The test applied to every trial key: the first `WITHIN` characters of
      the encoded public key, lowercased, contain the (already lowercased)
      target anywhere. */
  function Matches(prefix: string, publicText: string): (r: bool)
    requires WITHIN <= |publicText|
    ensures r <==> Contains(Lower(publicText[..WITHIN]), prefix)
  {
    SearchIsContains(Lower(publicText[..WITHIN]), prefix);
    Search(Lower(publicText[..WITHIN]), prefix)
  }

  /** The estimate never exceeds the number of 32-letter strings of the
      target's length. */
  lemma ExpectedAtMostPower(arg: string)
    requires |arg| <= ISIZE_MAX && Start(arg).Value?
    ensures Start(arg).value.expected <= Pow(32, |arg|)
  {
    QuotientAtMost(Start(arg).value.expected, WITHIN - |arg|, Pow(32, |arg|));
  }

  /** A key is accepted exactly when its lowercased window contains the
      lowercased argument, whatever the case of either. */
  lemma AcceptedIffLowerContains(arg: string, publicText: string)
    requires |arg| <= ISIZE_MAX && Start(arg).Value? && WITHIN <= |publicText|
    ensures Matches(Start(arg).value.prefix, publicText) <==>
            Contains(Lower(publicText[..WITHIN]), Lower(arg))
  {
  }

  /** Matching is case-insensitive in both the argument and the key. */
  lemma SearchIgnoresCase(arg: string, arg': string, publicText: string, publicText': string)
    requires |arg| <= ISIZE_MAX && SameUpToCase(arg, arg')
    requires WITHIN <= |publicText| && SameUpToCase(publicText, publicText')
    ensures Start(arg) == Start(arg')
    ensures Start(arg).Value? ==>
              Matches(Start(arg).value.prefix, publicText) ==
              Matches(Start(arg').value.prefix, publicText')
  {
    SameUpToCaseIffLowerEqual(arg, arg');
    SameUpToCaseIffLowerEqual(publicText, publicText');
    LowerPrefix(publicText, WITHIN);
    LowerPrefix(publicText', WITHIN);
  }

  /** A target longer than the window can never match. */
  lemma LongPrefixNeverMatches(prefix: string, publicText: string)
    requires WITHIN <= |publicText| && |prefix| > WITHIN
    ensures !Matches(prefix, publicText)
  {
    ContainsTooLong(Lower(publicText[..WITHIN]), prefix);
  }

  /** Target "AB" is lowercased to "ab" and expects 32^2 / 8 = 128 trials. */
  lemma ExampleStart()
    ensures Start("AB") == Value(Run("ab", 128))
  {
    assert Lower("AB") == "ab";
    assert Pow(32, 2) == 1024;
    var r := Start("AB");
    assert r.value.expected * 8 <= 1024 < (r.value.expected + 1) * 8;
  }

  /** Any key whose text begins "xxABxxxxxx" or "xxAbxxxxxx" matches "ab":
      the occurrence at offset 2 lies inside the window. */
  lemma ExampleMatchInWindow(rest: string)
    ensures Matches("ab", "xxABxxxxxx" + rest)
    ensures Matches("ab", "xxAbxxxxxx" + rest)
  {
    assert ("xxABxxxxxx" + rest)[..WITHIN] == "xxABxxxxxx";
    assert ("xxAbxxxxxx" + rest)[..WITHIN] == "xxAbxxxxxx";
    assert Lower("xxABxxxxxx") == "xxabxxxxxx";
    assert Lower("xxAbxxxxxx") == "xxabxxxxxx";
    assert OccursAt("xxabxxxxxx", "ab", 2);
  }

  /** A key whose text begins with ten `x` does not match "ab", wherever
      "AB" occurs after them: the window ends before it. */
  lemma ExampleNoMatchPastWindow(rest: string)
    ensures !Matches("ab", "xxxxxxxxxx" + rest)
  {
    assert ("xxxxxxxxxx" + rest)[..WITHIN] == "xxxxxxxxxx";
    assert Lower("xxxxxxxxxx") == "xxxxxxxxxx";
    MissingCharNotContained("xxxxxxxxxx", "ab", 0);
  }
}
