/** The library's `trial` (src/lib.rs): after a fresh key pair has been drawn
    and its public half base64-encoded, decide whether the key is wanted. Key
    generation and encoding are outside the model: the encoded public key is
    an input. */
module Library {
  import opened Rust
  import opened Ascii

  /** The test inside `trial`: the first `within` characters of the encoded
      public key, lowercased, contain `prefix` as it was passed. Slicing past
      the end of the text panics. */
  function Trial(prefix: string, within: usize, publicText: string): (r: Checked<bool>)
    ensures r.Value? <==> within <= |publicText|
    ensures r.Panic? ==> r.fault == SliceOutOfRange
    ensures r.Value? ==> (r.value <==> Contains(Lower(publicText[..within]), prefix))
  {
    if within <= |publicText| then
      SearchIsContains(Lower(publicText[..within]), prefix);
      Value(Search(Lower(publicText[..within]), prefix))
    else
      Panic(SliceOutOfRange)
  }

  /** On a real public key the test is defined exactly for windows of at most
      the 44 characters of the encoding. */
  lemma TrialOnKeyText(prefix: string, within: usize, publicText: string)
    requires IsKeyText(publicText)
    ensures Trial(prefix, within, publicText).Value? <==> within <= KEY_TEXT_LEN
  {
  }

  /** The case of the letters in the public key does not matter. */
  lemma TrialIgnoresKeyCase(prefix: string, within: usize, a: string, b: string)
    requires SameUpToCase(a, b)
    ensures Trial(prefix, within, a) == Trial(prefix, within, b)
  {
    SameUpToCaseIffLowerEqual(a, b);
    if within <= |a| {
      LowerPrefix(a, within);
      LowerPrefix(b, within);
    }
  }

  /** Flipping the case of any one character of the public key keeps the outcome. */
  lemma TrialIgnoresFlippedKeyChar(prefix: string, within: usize, publicText: string, k: nat)
    requires k < |publicText|
    ensures Trial(prefix, within, publicText) ==
            Trial(prefix, within, publicText[k := FlipCase(publicText[k])])
  {
    FlipCaseAtSameUpToCase(publicText, k);
    TrialIgnoresKeyCase(prefix, within, publicText, publicText[k := FlipCase(publicText[k])]);
  }

  /** `trial` does not lowercase the prefix: one with an upper-case letter
      never matches. */
  lemma TrialUpperPrefixNeverMatches(prefix: string, within: usize, publicText: string, j: nat)
    requires j < |prefix| && IsUpper(prefix[j])
    ensures Trial(prefix, within, publicText) != Value(true)
  {
    if within <= |publicText| {
      LowerKeepsNonUpper(publicText[..within]);
      NoUpperContainsNoUpper(Lower(publicText[..within]), prefix, j);
    }
  }

  /** Widening the window keeps every match. */
  lemma TrialMonotone(prefix: string, within: usize, wider: usize, publicText: string)
    requires within <= wider <= |publicText|
    requires Trial(prefix, within, publicText) == Value(true)
    ensures Trial(prefix, wider, publicText) == Value(true)
  {
    var low := Lower(publicText);
    LowerPrefix(publicText, within);
    LowerPrefix(publicText, wider);
    assert Contains(low[..within], prefix);
    assert low[..wider] == low[..within] + low[within..wider];
    ContainsExtend(low[..within], low[within..wider], prefix);
    assert Contains(Lower(publicText[..wider]), prefix);
  }

  /** The empty prefix matches every key whose window is in range. */
  lemma TrialEmptyPrefix(within: usize, publicText: string)
    requires within <= |publicText|
    ensures Trial("", within, publicText) == Value(true)
  {
    ContainsEmpty(Lower(publicText[..within]));
  }

  /** A prefix longer than the window never matches. */
  lemma TrialPrefixLongerThanWindow(prefix: string, within: usize, publicText: string)
    requires |prefix| > within
    ensures Trial(prefix, within, publicText) != Value(true)
  {
    if within <= |publicText| {
      ContainsTooLong(Lower(publicText[..within]), prefix);
    }
  }

  /** The benchmark's prefix never matches within 10 characters, so every
      benchmarked call runs a full trial that fails (benches/keygen.rs). */
  lemma BenchmarkNeverMatches(publicText: string)
    ensures Trial("gratuitously long prefix that will never be found", 10, publicText) != Value(true)
  {
    TrialPrefixLongerThanWindow("gratuitously long prefix that will never be found", 10, publicText);
  }
}
