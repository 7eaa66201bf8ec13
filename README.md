# wireguard-vanity-address: window test and search configuration

The program looks for WireGuard (X25519) key pairs whose base64-encoded
public key contains a chosen name near its start. Each trial draws a random
private key, derives the public key, encodes it and tests the encoded text.
This model covers the parts of that loop that are plain integer and string
logic, in the three programs of the repository:

- `src/lib.rs`, the library's `trial` test (module `Library`). The first
  `within` characters of the encoded key are lowercased and searched for the
  prefix, which is used as passed. A window longer than the text panics.
- `src/main.rs`, the first single-file program (module `Prototype`). It
  lowercases the target once, computes `offsets = 10 - len` and
  `expected = 32^len / offsets` in u64, and tests the first ten characters of
  every key.
- `src/bin.rs`, the command-line program (module `Cli`). It picks the window
  end from `--in RANGE`, or by default 10, or `len + 10` for a target longer
  than 10. It rejects an end shorter than the target, computes
  `offsets = 1 + end - len` and the estimate, and searches the window `[0, end)`.

Two modules support them. `Ascii` models `to_ascii_lowercase` and
`str::contains`; the latter is a left-to-right search (`Search`) proved equal
to the occurrence predicate `Contains`. It also gives the shape of a 32-byte
key in padded base64 (section 4 of RFC 4648): 44 characters, the last one `=`.
`Rust` models u64/usize arithmetic as an overflow-checked build runs it. An
addition that overflows, a subtraction that underflows, a `pow` that overflows,
a division by zero or a slice past the end is a `Panic(fault)` rather than a
value. `usize` is 64 bits wide, a `String` is at most `isize::MAX` bytes long,
and `len as u32` keeps the low 32 bits of the length.

The library's `trial` (src/lib.rs:6) takes a prefix and a window length,
lowercases only the key window, not the prefix, and always tests a prefix of
the key. src/bin.rs:76 calls a three-argument `trial(prefix, start, end)`
that src/lib.rs does not define: the command-line program was written against
a different version of the library, and its window `[0, end)` is tested here
with the two-argument `trial` of src/lib.rs and `within = end`.

## Model

| member | source | states |
|---|---|---|
| `Library.Trial` | src/lib.rs:14-23 | defined exactly when `within` is at most the text's length, otherwise a slice panic; true iff the lowercased first `within` characters contain the prefix as given |
| `Library.TrialOnKeyText` | src/lib.rs:12-14 | on a 44-character encoded key the test runs without panicking exactly for `within <= 44` |
| `Library.TrialIgnoresKeyCase` | src/lib.rs:14 | two keys equal up to letter case get the same outcome |
| `Library.TrialIgnoresFlippedKeyChar` | src/lib.rs:14 | flipping the case of any one key character keeps the outcome |
| `Library.TrialUpperPrefixNeverMatches` | src/lib.rs:14 | the prefix is not lowercased, so a prefix holding an upper-case letter never matches |
| `Library.TrialMonotone` | src/lib.rs:14 | a match in a window is still a match in every wider window that fits the key |
| `Library.TrialEmptyPrefix` | src/lib.rs:14 | the empty prefix matches for every window that fits |
| `Library.TrialPrefixLongerThanWindow` | src/lib.rs:14 | a prefix longer than the window never matches |
| `Library.BenchmarkNeverMatches` | benches/keygen.rs:7-11 | the benchmark's 49-character prefix never matches within 10 characters, so every benchmarked trial fails |
| `Ascii.AsciiLower` | src/lib.rs:14 | an upper-case ASCII letter maps to its lower-case letter, every other character to itself, and no result is upper-case |
| `Ascii.Lower` | src/lib.rs:14 | `to_ascii_lowercase` keeps the length and lowercases character by character |
| `Ascii.LowerKeepsNonUpper` | src/lib.rs:14 | lowercasing leaves no upper-case letter and keeps every other character, digits, `+`, `/` and `=` included |
| `Ascii.LowerIdempotent` | src/main.rs:12 | lowercasing an already lowercased target changes nothing |
| `Ascii.SameUpToCaseIffLowerEqual` | src/main.rs:32 | two strings lowercase to the same text iff they differ only in letter case (both directions) |
| `Ascii.FlipCaseAtSameUpToCase` | src/main.rs:32 | flipping the case of one character gives a string equal up to case |
| `Ascii.Search` | src/lib.rs:14 | `str::contains`: succeeds whenever the text starts with the prefix, and only when the prefix is no longer than the text |
| `Ascii.SearchIsContains` | src/lib.rs:14 | the left-to-right search for the prefix succeeds iff the prefix occurs at some offset |
| `Rust.CheckedAdd` | src/bin.rs:64 | `1 + end` on usize panics with an add overflow exactly when the sum reaches 2^64, otherwise it is the sum |
| `Rust.CheckedSub` | src/main.rs:15 | `(WITHIN as u64) - len` panics with an underflow exactly when `len` exceeds 10, otherwise the difference added back to `len` gives 10 |
| `Rust.AsU32` | src/bin.rs:66 | `len as u32` is below 2^32 and keeps every length below 2^32 unchanged |
| `Rust.CheckedDiv` | src/main.rs:16 | u64 division panics on a zero divisor, otherwise its quotient times the divisor brackets the dividend |
| `Rust.CheckedPow` | src/bin.rs:66 | `u64::pow` panics exactly when the mathematical power does not fit 64 bits |
| `Rust.Pow32Fits` | src/bin.rs:66 | `32^e` fits a u64 iff `e <= 12` |
| `Prototype.Start` | src/main.rs:12-16 | a target longer than 10 underflows `10 - len`, one of exactly 10 divides by zero, a shorter one is accepted; the prefix kept is the lowercased argument and the estimate times `10 - len` brackets `32^len` |
| `Prototype.Matches` | src/main.rs:32 | a key matches iff its lowercased first 10 characters contain the prefix |
| `Prototype.ExpectedAtMostPower` | src/main.rs:15-16 | the estimate never exceeds `32^len` |
| `Prototype.AcceptedIffLowerContains` | src/main.rs:12-32 | a key is accepted iff its lowercased window contains the lowercased argument |
| `Prototype.SearchIgnoresCase` | src/main.rs:12-32 | arguments equal up to case give the same run, and keys equal up to case get the same outcome |
| `Prototype.LongPrefixNeverMatches` | src/main.rs:32 | a target longer than 10 characters can never match |
| `Prototype.ExampleStart` | src/main.rs:12-16 | target `AB` becomes `ab` with an estimate of 128 trials |
| `Prototype.ExampleMatchInWindow` | src/main.rs:32 | keys beginning `xxABxxxxxx` or `xxAbxxxxxx` match `ab` |
| `Prototype.ExampleNoMatchPastWindow` | src/main.rs:32 | a key beginning with ten `x` does not match `ab`, wherever `AB` follows |
| `Cli.WindowEnd` | src/bin.rs:47-56 | an unparsable RANGE is an error, a parsed one is the end, and the default end is at least the target length and 10 and at most `len + 10` |
| `Cli.Configure` | src/bin.rs:45-66 | an unparsable RANGE ends in the parse error; an accepted plan keeps the target, starts its window at 0, ends it at or after the target length, and estimates `32^(len as u32) / (1 + end - len)` |
| `Cli.DefaultWindowShort` | src/bin.rs:49-52 | no RANGE and a target of at most 10 characters: accepted with window end 10 |
| `Cli.DefaultWindowLong` | src/bin.rs:53-66 | no RANGE and a longer target: window end `len + 10`, accepted iff `len as u32 <= 12`, otherwise a `pow` overflow |
| `Cli.TooShortIff` | src/bin.rs:47-62 | the too-short error is raised iff an explicit RANGE is below the target length, carrying that end and length |
| `Cli.NoUpperBound` | src/bin.rs:57-66 | every explicit RANGE from the target length up to `usize::MAX - 1` is accepted with that end, past 44 included |
| `Cli.ConfigureOutcome` | src/bin.rs:45-66 | for a parsed or default end: too short, then add overflow at `usize::MAX`, then `pow` overflow, otherwise accepted with that end |
| `Cli.ExpectedBrackets` | src/bin.rs:64-66 | on an accepted plan `offsets >= 1`, the estimate times `offsets` brackets `32^(len as u32)`, and the estimate is at most `32^len` |
| `Cli.MaxRangeOverflows` | src/bin.rs:64 | RANGE = `usize::MAX` passes the length check and then `1 + end` overflows, for every target |
| `Cli.LongDefaultTargetOverflows` | src/bin.rs:49-66 | with no RANGE, every target of 13 or more characters (below 2^32) panics computing `32^len` |
| `Cli.WindowPastKeyAccepted` | src/bin.rs:57-76 | a RANGE past 44 is accepted, and the window test then panics on every encoded key |
| `Cli.ConfigureChecked` | src/bin.rs:45-66 | corrected configuration: errors exactly for an unparsable RANGE, an explicit end outside `[len, 44]` or a target longer than 44; never panics; accepted windows start at 0 and fit the key; an explicit RANGE is the window end, the default is 10, or `len + 10` capped at 44; estimate `32^len / (end - len + 1)` |
| `Cli.KeyWindowPlan` | src/bin.rs:64-66 | the corrected plan keeps the target, searches `[0, end)`, and its estimate times `end - len + 1` never exceeds `32^len` |
| `Cli.CheckedPlanTrialsDefined` | src/bin.rs:76 | every window the corrected configuration accepts is tested without a panic on every encoded key |
| `Cli.CheckedAgreesWithinKey` | src/bin.rs:45-66 | wherever the program as written accepts a window that fits the key, the corrected configuration picks the same window and estimate |

## Findings

| source | as written | input that shows it | evidently intended | confidence | as-written member | corrected member |
|---|---|---|---|---|---|---|
| src/bin.rs:64 | `1 + end - len` adds before subtracting, and RANGE may be any `usize` | `--in 18446744073709551615 abc`: `1 + end` overflows; an overflow-checked build panics | every RANGE at or above the target length is accepted or rejected with a message | medium, not executed (a release build wraps instead, then divides by zero for an empty target) | `Cli.MaxRangeOverflows` | `Cli.ConfigureChecked` |
| src/bin.rs:66 | `2u64.pow(5).pow(len as u32)` is computed in u64 | target `abcdefghijklm` with no RANGE: `32^13 = 2^65` overflows; an overflow-checked build panics before searching | an estimate is printed for every accepted target | medium, not executed (a release build wraps and prints 0) | `Cli.LongDefaultTargetOverflows` | `Cli.ConfigureChecked` |
| src/bin.rs:57 | `end < len` is the only check on the window | `--in 45 a`: accepted, and the `[0, 45)` window is longer than the 44-character key, so the slice in the window test panics on every trial | a window that cannot fit the key is rejected before the search starts | medium, not executed (assumes the called `trial` slices `[0, end)` as src/lib.rs:14 does) | `Cli.WindowPastKeyAccepted` | `Cli.ConfigureChecked` |

`Cli.ConfigureChecked` caps the default window at 44 characters. It rejects an
explicit window past 44 (`RangeBeyondKey`), counts offsets as `end - len + 1`
and computes the estimate in unbounded integers. `Cli.CheckedPlanTrialsDefined`
and `Cli.CheckedAgreesWithinKey` prove that the corrected version's windows
never panic and that it agrees with the original wherever the original works.

## Left out

- Key generation: `OsRng`, `thread_rng`, `try_fill_bytes`, `StaticSecret::new`, `x25519` and `PublicKey::from` are calls into cryptographic libraries. The encoded public key is an input.
- Base64 encoding: `base64::encode` is a library call. Its output is an input string, at most constrained to 44 characters of the padded alphabet.
- The parallel loop of 100,000,000 trials (rayon), its filtering and collection, and all printing of keys and estimates.
- Argument handling: `clap` parsing, `env::args().nth(1).unwrap()` (a missing argument panics there) and the digits accepted by `usize::from_str`. RANGE is reduced to "absent, a number, or unparsable", and the target is an input string.
- The three-argument `trial(prefix, 0, end)` called at src/bin.rs:76 is not part of this model; the `trial` of src/lib.rs:6 takes two arguments. The window `[0, end)` is modelled as the plan's `windowStart` and `windowEnd`. The findings apply the two-argument test of src/lib.rs:14 to it.
- Release builds: overflow is modelled as a panic, as an overflow-checked build behaves. A release build wraps `1 + end`, `10 - len` and `pow` modulo 2^64 instead; division by zero and slicing panic in both.
- Non-ASCII text: strings are sequences of ASCII characters, so `len()` counts characters and every slice falls on a character boundary. A non-ASCII target would have a byte length differing from its character count.
- Cli.NoUpperBound: stated for targets of at most 12 characters. `Cli.ConfigureOutcome` covers longer targets, including the truncation of `len as u32`.
- Cli.WindowPastKeyAccepted: stated for targets of at most 12 characters, where the estimate fits; longer targets already fail at `pow`.
