/** Token conversion and retry back-off, in exact arithmetic with the machine's integer widths:
    results saturate at the top of u64, and the attempt counter is cast from u32 to i32. */
module Tokenization {

  datatype Config = Config(
    ratio: real,
    decimals: nat,
    maxReadingKwh: real,
    readingMaxAgeDays: int,
    autoMint: bool,
    pollingSecs: nat,
    batchSize: nat,
    maxRetryAttempts: nat,
    initialDelay: nat,
    multiplier: real,
    maxDelay: nat,
    timeoutSecs: nat,
    maxTransactions: nat,
    realBlockchain: bool,
    onchainEscrow: bool,
    mintThreshold: real)

  const DEFAULT := Config(1.0, 9, 100.0, 7, true, 60, 50, 3, 300, 2.0, 3600, 60, 20, true, false, 5.0)

  // ---------------------------------------------------------------- loading

  /** An environment variable: not set, set to something that does not parse, or a value. */
  datatype Var<+T> = Unset | Malformed | Value(v: T)

  datatype Env = Env(
    ratio: Var<real>,
    decimals: Var<nat>,
    maxReadingKwh: Var<real>,
    readingMaxAgeDays: Var<int>,
    autoMint: Var<bool>,
    pollingSecs: Var<nat>,
    batchSize: Var<nat>,
    maxRetryAttempts: Var<nat>,
    initialDelay: Var<nat>,
    multiplier: Var<real>,
    maxDelay: Var<nat>,
    timeoutSecs: Var<nat>,
    maxTransactions: Var<nat>,
    realBlockchain: Var<bool>,
    mintThreshold: Var<real>)

  datatype Loaded = Ok(config: Config) | PollingTooShort | EmptyBatch | TooManyDecimals | DelaysCrossed

  /** What every configuration the program runs with satisfies. */
  predicate Sound(c: Config) {
    && c.ratio > 0.0 && c.decimals <= 18 && c.maxReadingKwh > 0.0 && c.readingMaxAgeDays > 0
    && c.pollingSecs >= 10 && 1 <= c.batchSize <= 1000
    && 1 <= c.initialDelay <= c.maxDelay && c.multiplier >= 1.0
    && c.timeoutSecs >= 10 && c.maxTransactions >= 1 && c.mintThreshold >= 0.0
  }

  /** A variable is taken if it is set, parses and passes its check; otherwise the default stands. */
  function Take<T>(v: Var<T>, passes: bool, standard: T): T {
    if v.Value? && passes then v.v else standard
  }

  /** Every configuration that loads is sound, and loading fails in one way only: an initial
      delay above one hour without an accepted maximum. The other three checks never fail. */
  method FromEnv(env: Env) returns (r: Loaded)
    ensures r.Ok? || r == DelaysCrossed
    ensures r.Ok? ==> Sound(r.config)
    ensures r.Ok? ==>
              && r.config.ratio == Take(env.ratio, env.ratio.Value? && env.ratio.v > 0.0, 1.0)
              && r.config.decimals == Take(env.decimals, env.decimals.Value? && env.decimals.v <= 18, 9)
              && r.config.maxReadingKwh == Take(env.maxReadingKwh, env.maxReadingKwh.Value? && env.maxReadingKwh.v > 0.0, 100.0)
              && r.config.readingMaxAgeDays ==
                 Take(env.readingMaxAgeDays, env.readingMaxAgeDays.Value? && env.readingMaxAgeDays.v > 0, 7)
              && r.config.mintThreshold == Take(env.mintThreshold, env.mintThreshold.Value? && env.mintThreshold.v >= 0.0, 5.0)
              && r.config.autoMint == Take(env.autoMint, true, true)
              && r.config.realBlockchain == Take(env.realBlockchain, true, true)
              && !r.config.onchainEscrow
    ensures r.Ok? ==>
              && r.config.pollingSecs == Take(env.pollingSecs, env.pollingSecs.Value? && env.pollingSecs.v >= 10, 60)
              && r.config.batchSize == Take(env.batchSize, env.batchSize.Value? && 1 <= env.batchSize.v <= 1000, 50)
              && r.config.timeoutSecs == Take(env.timeoutSecs, env.timeoutSecs.Value? && env.timeoutSecs.v >= 10, 60)
              && r.config.maxTransactions == Take(env.maxTransactions, env.maxTransactions.Value? && env.maxTransactions.v >= 1, 20)
    ensures r.Ok? ==>
              && r.config.maxRetryAttempts == Take(env.maxRetryAttempts, true, 3)
              && r.config.initialDelay == Take(env.initialDelay, env.initialDelay.Value? && env.initialDelay.v >= 1, 300)
              && r.config.multiplier == Take(env.multiplier, env.multiplier.Value? && env.multiplier.v >= 1.0, 2.0)
              && r.config.maxDelay == Take(env.maxDelay, env.maxDelay.Value? && env.maxDelay.v >= r.config.initialDelay, 3600)
    ensures var initial := Take(env.initialDelay, env.initialDelay.Value? && env.initialDelay.v >= 1, 300);
            r.DelaysCrossed? <==> initial > 3600 && !(env.maxDelay.Value? && env.maxDelay.v >= initial)
  {
    var ratio := DEFAULT.ratio;
    if env.ratio.Value? && env.ratio.v > 0.0 {
      ratio := env.ratio.v;
    }
    var decimals := DEFAULT.decimals;
    if env.decimals.Value? && env.decimals.v <= 18 {
      decimals := env.decimals.v;
    }
    var maxReadingKwh := DEFAULT.maxReadingKwh;
    if env.maxReadingKwh.Value? && env.maxReadingKwh.v > 0.0 {
      maxReadingKwh := env.maxReadingKwh.v;
    }
    var readingMaxAgeDays := DEFAULT.readingMaxAgeDays;
    if env.readingMaxAgeDays.Value? && env.readingMaxAgeDays.v > 0 {
      readingMaxAgeDays := env.readingMaxAgeDays.v;
    }
    var autoMint := DEFAULT.autoMint;
    if env.autoMint.Value? {
      autoMint := env.autoMint.v;
    }
    var pollingSecs := DEFAULT.pollingSecs;
    if env.pollingSecs.Value? && env.pollingSecs.v >= 10 {
      pollingSecs := env.pollingSecs.v;
    }
    var batchSize := DEFAULT.batchSize;
    if env.batchSize.Value? && 1 <= env.batchSize.v <= 1000 {
      batchSize := env.batchSize.v;
    }
    var maxRetryAttempts := DEFAULT.maxRetryAttempts;
    if env.maxRetryAttempts.Value? {
      maxRetryAttempts := env.maxRetryAttempts.v;
    }
    var initialDelay := DEFAULT.initialDelay;
    if env.initialDelay.Value? && env.initialDelay.v >= 1 {
      initialDelay := env.initialDelay.v;
    }
    var multiplier := DEFAULT.multiplier;
    if env.multiplier.Value? && env.multiplier.v >= 1.0 {
      multiplier := env.multiplier.v;
    }
    var maxDelay := DEFAULT.maxDelay;
    if env.maxDelay.Value? && env.maxDelay.v >= initialDelay {
      maxDelay := env.maxDelay.v;
    }
    var timeoutSecs := DEFAULT.timeoutSecs;
    if env.timeoutSecs.Value? && env.timeoutSecs.v >= 10 {
      timeoutSecs := env.timeoutSecs.v;
    }
    var maxTransactions := DEFAULT.maxTransactions;
    if env.maxTransactions.Value? && env.maxTransactions.v >= 1 {
      maxTransactions := env.maxTransactions.v;
    }
    var realBlockchain := DEFAULT.realBlockchain;
    if env.realBlockchain.Value? {
      realBlockchain := env.realBlockchain.v;
    }
    var onchainEscrow := DEFAULT.onchainEscrow;
    var mintThreshold := DEFAULT.mintThreshold;
    if env.mintThreshold.Value? && env.mintThreshold.v >= 0.0 {
      mintThreshold := env.mintThreshold.v;
    }
    if autoMint && pollingSecs < 10 {
      return PollingTooShort;
    }
    if batchSize == 0 {
      return EmptyBatch;
    }
    if decimals > 18 {
      return TooManyDecimals;
    }
    if maxDelay < initialDelay {
      return DelaysCrossed;
    }
    r := Ok(Config(ratio, decimals, maxReadingKwh, readingMaxAgeDays, autoMint, pollingSecs, batchSize, maxRetryAttempts,
                   initialDelay, multiplier, maxDelay, timeoutSecs, maxTransactions, realBlockchain, onchainEscrow,
                   mintThreshold));
  }

  // ---------------------------------------------------------------- conversion

  const TWO_64 := 0x1_0000_0000_0000_0000
  const U64_MAX := TWO_64 - 1

  function Pow(b: real, n: nat): real {
    if n == 0 then 1.0 else b * Pow(b, n - 1)
  }

  lemma {:induction false} PowPositive(b: real, n: nat)
    requires b > 0.0
    ensures Pow(b, n) > 0.0
  {
    if n == 0 {
    } else {
      PowPositive(b, n - 1);
    }
  }

  /** Base units per kWh. */
  function Scale(c: Config): real {
    c.ratio * Pow(10.0, c.decimals)
  }

  /** One kWh is `ratio` tokens of 10^decimals units: without decimals `ratio` units, and ten times as
      many for each decimal. */
  lemma UnitsPerKwh(c: Config)
    ensures c.decimals == 0 ==> Scale(c) == c.ratio
    ensures Scale(c.(decimals := c.decimals + 1)) == 10.0 * Scale(c)
  {
  }

  lemma {:induction false} TenToThe(n: nat)
    requires n <= 9
    ensures Pow(10.0, n) == [1.0, 10.0, 100.0, 1000.0, 10000.0, 100000.0, 1000000.0, 10000000.0, 100000000.0, 1000000000.0][n]
  {
    if n == 0 {
    } else {
      TenToThe(n - 1);
    }
  }

  /** At ratio 1 and 9 decimals, x kWh are x thousand million units, cut to whole ones. */
  lemma NineDecimals(c: Config, kwh: real)
    requires c.ratio == 1.0 && c.decimals == 9 && 0.0 <= kwh <= c.maxReadingKwh && kwh <= 1000000000.0
    ensures KwhToTokens(c, kwh) == Units((kwh * 1000000000.0).Floor)
    ensures kwh == 1.0 ==> KwhToTokens(c, kwh) == Units(1000000000)
  {
    TenToThe(9);
    assert Scale(c) == 1000000000.0;
  }

  lemma ScalePositive(c: Config)
    requires c.ratio > 0.0
    ensures Scale(c) > 0.0
  {
    PowPositive(10.0, c.decimals);
  }

  datatype Tokens = Units(n: nat) | NegativeAmount | AmountTooHigh | AmountExceedsMaximum

  /** A float-to-u64 cast of a non-negative value: truncate, saturate at the top. */
  function ToU64(x: real): nat
    requires x >= 0.0
  {
    if x.Floor <= U64_MAX then x.Floor else U64_MAX
  }

  /** `u64::MAX as f64` is 2^64, so exactly 2^64 base units still pass the check. */
  function KwhToTokens(c: Config, kwh: real): Tokens {
    Convert(Scale(c), c.maxReadingKwh, kwh)
  }

  function Convert(scale: real, maxKwh: real, kwh: real): Tokens {
    if kwh < 0.0 then NegativeAmount
    else if kwh > maxKwh then AmountTooHigh
    else
      var t := kwh * scale;
      if t > TWO_64 as real then AmountExceedsMaximum
      else if t < 0.0 then Units(0)
      else Units(ToU64(t))
  }

  /** Which conversions fail, and how: negative readings, readings above the maximum, and more than
      2^64 base units; what passes is cut to whole units, 2^64 itself to one less. */
  lemma ConversionExact(c: Config, kwh: real)
    requires c.ratio > 0.0
    ensures KwhToTokens(c, kwh) == NegativeAmount <==> kwh < 0.0
    ensures KwhToTokens(c, kwh) == AmountTooHigh <==> kwh >= 0.0 && kwh > c.maxReadingKwh
    ensures KwhToTokens(c, kwh) == AmountExceedsMaximum <==>
              0.0 <= kwh <= c.maxReadingKwh && kwh * Scale(c) > 18446744073709551616.0
    ensures KwhToTokens(c, kwh).Units? ==>
              KwhToTokens(c, kwh).n ==
              if kwh * Scale(c) == 18446744073709551616.0 then 18446744073709551615 else (kwh * Scale(c)).Floor
  {
    ScalePositive(c);
    if kwh >= 0.0 {
      ScaledNonNegative(kwh, Scale(c));
    }
  }

  function TokensToKwh(c: Config, n: nat): real
    requires Scale(c) != 0.0
  {
    n as real / Scale(c)
  }

  lemma ScaledBack(s: real, n: nat)
    requires s > 0.0
    ensures (n as real / s) * s == n as real && n as real / s >= 0.0
  {
  }

  /** tokens → kWh → tokens is the identity exactly for amounts worth at most one maximal reading. */
  lemma TokensRoundTrip(c: Config, n: nat)
    requires c.ratio > 0.0 && n <= U64_MAX
    ensures Scale(c) > 0.0
    ensures KwhToTokens(c, TokensToKwh(c, n)) == Units(n) <==> TokensToKwh(c, n) <= c.maxReadingKwh
  {
    ScalePositive(c);
    ScaledBack(Scale(c), n);
  }

  lemma ScaledNonNegative(kwh: real, s: real)
    requires kwh >= 0.0 && s > 0.0
    ensures kwh * s >= 0.0
  {
  }

  /** kWh → tokens → kWh never gains and loses less than one base unit, except that 2^64 units,
      which saturate, lose exactly one. */
  lemma KwhRoundTrip(c: Config, kwh: real)
    requires c.ratio > 0.0 && KwhToTokens(c, kwh).Units?
    ensures Scale(c) > 0.0
    ensures var n := KwhToTokens(c, kwh).n; var lost := kwh * Scale(c) - TokensToKwh(c, n) * Scale(c);
            && n <= U64_MAX
            && 0.0 <= lost <= 1.0
            && (lost == 1.0 <==> kwh * Scale(c) == TWO_64 as real)
  {
    ScalePositive(c);
    ScaledNonNegative(kwh, Scale(c));
    ScaledBack(Scale(c), KwhToTokens(c, kwh).n);
  }

  // ---------------------------------------------------------------- minting in parts

  function Total(xs: seq<real>): real {
    if xs == [] then 0.0 else Total(xs[..|xs| - 1]) + xs[|xs| - 1]
  }

  predicate NonNegative(xs: seq<real>) {
    forall i :: 0 <= i < |xs| ==> xs[i] >= 0.0
  }

  function Scaled(xs: seq<real>, s: real): seq<real> {
    seq(|xs|, i requires 0 <= i < |xs| => xs[i] * s)
  }

  /** Tokens minted when each part is converted on its own. */
  function SumU64(xs: seq<real>): nat
    requires NonNegative(xs)
  {
    if xs == [] then 0 else SumU64(xs[..|xs| - 1]) + ToU64(xs[|xs| - 1])
  }

  function SumFloor(xs: seq<real>): int {
    if xs == [] then 0 else SumFloor(xs[..|xs| - 1]) + xs[|xs| - 1].Floor
  }

  predicate Whole(x: real) {
    x == x.Floor as real
  }

  predicate AllWhole(xs: seq<real>) {
    forall i :: 0 <= i < |xs| ==> Whole(xs[i])
  }

  /** Rounding down part by part loses less than one unit per part, and nothing exactly when
      every part is whole. */
  lemma {:induction false} FloorParts(xs: seq<real>)
    ensures SumFloor(xs) as real <= Total(xs)
    ensures xs != [] ==> Total(xs) < SumFloor(xs) as real + |xs| as real
    ensures SumFloor(xs) as real == Total(xs) <==> AllWhole(xs)
  {
    if xs == [] {
    } else {
      var n := |xs| - 1;
      FloorParts(xs[..n]);
      assert AllWhole(xs) <==> AllWhole(xs[..n]) && Whole(xs[n]) by {
        assert forall i :: 0 <= i < n ==> xs[..n][i] == xs[i];
      }
    }
  }

  lemma {:induction false} PartsBelowTotal(xs: seq<real>, i: nat)
    requires NonNegative(xs) && i < |xs|
    ensures 0.0 <= xs[i] <= Total(xs)
    ensures xs[i] == Total(xs) ==> forall j :: 0 <= j < |xs| && j != i ==> xs[j] == 0.0
  {
    var n := |xs| - 1;
    TotalNonNegative(xs[..n]);
    if i < n {
      PartsBelowTotal(xs[..n], i);
      assert forall j :: 0 <= j < n ==> xs[..n][j] == xs[j];
    }
  }

  lemma {:induction false} TotalNonNegative(xs: seq<real>)
    requires NonNegative(xs)
    ensures Total(xs) >= 0.0
    ensures Total(xs) == 0.0 ==> forall j :: 0 <= j < |xs| ==> xs[j] == 0.0
  {
    if xs == [] {
    } else {
      var n := |xs| - 1;
      TotalNonNegative(xs[..n]);
      assert forall j :: 0 <= j < n ==> xs[..n][j] == xs[j];
    }
  }

  predicate BelowTop(xs: seq<real>) {
    forall i :: 0 <= i < |xs| ==> xs[i] < TWO_64 as real
  }

  lemma {:induction false} UncappedSum(xs: seq<real>)
    requires NonNegative(xs) && BelowTop(xs)
    ensures SumU64(xs) == SumFloor(xs)
  {
    if xs == [] {
    } else {
      UncappedSum(xs[..|xs| - 1]);
    }
  }

  lemma {:induction false} ZeroSum(xs: seq<real>)
    requires forall i :: 0 <= i < |xs| ==> xs[i] == 0.0
    ensures SumU64(xs) == 0
  {
    if xs == [] {
    } else {
      ZeroSum(xs[..|xs| - 1]);
    }
  }

  lemma {:induction false} OneBigSum(xs: seq<real>, i: nat)
    requires NonNegative(xs) && i < |xs|
    requires forall j :: 0 <= j < |xs| && j != i ==> xs[j] == 0.0
    ensures SumU64(xs) == ToU64(xs[i])
  {
    var n := |xs| - 1;
    if i == n {
      ZeroSum(xs[..n]);
    } else {
      OneBigSum(xs[..n], i);
    }
  }

  /** Amounts in base units: converting parts separately falls short of converting the whole by
      at most one unit per part after the first, and exceeds it only at the very top, when
      parts that are all whole and below 2^64 add up to exactly 2^64. */
  lemma PartsAgainstWhole(xs: seq<real>)
    requires NonNegative(xs) && xs != [] && Total(xs) <= TWO_64 as real
    ensures Total(xs) >= 0.0
    ensures ToU64(Total(xs)) <= SumU64(xs) + |xs| - 1
    ensures SumU64(xs) <= ToU64(Total(xs)) <==> !(Total(xs) == TWO_64 as real && AllWhole(xs) && BelowTop(xs))
  {
    TotalNonNegative(xs);
    FloorParts(xs);
    if BelowTop(xs) {
      UncappedSum(xs);
    } else {
      var i :| 0 <= i < |xs| && xs[i] >= TWO_64 as real;
      PartsBelowTotal(xs, i);
      OneBigSum(xs, i);
    }
  }

  lemma ScaledPrefix(xs: seq<real>, s: real)
    requires xs != []
    ensures Scaled(xs, s)[..|xs| - 1] == Scaled(xs[..|xs| - 1], s)
    ensures Scaled(xs, s)[|xs| - 1] == xs[|xs| - 1] * s
  {
    var n := |xs| - 1;
    forall i | 0 <= i < n ensures Scaled(xs, s)[..n][i] == Scaled(xs[..n], s)[i] {
      assert xs[..n][i] == xs[i];
    }
  }

  lemma {:induction false} ScaledTotal(xs: seq<real>, s: real)
    ensures Total(Scaled(xs, s)) == Total(xs) * s
  {
    if xs == [] {
    } else {
      var n := |xs| - 1;
      ScaledTotal(xs[..n], s);
      ScaledPrefix(xs, s);
      Distribute(Total(xs[..n]), xs[n], s);
    }
  }

  lemma Distribute(a: real, b: real, s: real)
    ensures (a + b) * s == a * s + b * s
  {
  }

  lemma ScaledLess(a: real, b: real, s: real)
    requires 0.0 <= a <= b && s > 0.0
    ensures 0.0 <= a * s <= b * s
  {
  }

  ghost predicate AllConvert(s: real, maxKwh: real, parts: seq<real>) {
    forall i :: 0 <= i < |parts| ==> Convert(s, maxKwh, parts[i]).Units?
  }

  /** Total of the separate conversions. */
  function MintedInParts(s: real, maxKwh: real, parts: seq<real>): nat
    requires AllConvert(s, maxKwh, parts)
  {
    if parts == [] then 0
    else MintedInParts(s, maxKwh, parts[..|parts| - 1]) + Convert(s, maxKwh, parts[|parts| - 1]).n
  }

  lemma ConvertIsToU64(s: real, maxKwh: real, kwh: real)
    requires s > 0.0 && Convert(s, maxKwh, kwh).Units?
    ensures kwh >= 0.0 && kwh * s >= 0.0 && kwh * s <= TWO_64 as real
    ensures Convert(s, maxKwh, kwh).n == ToU64(kwh * s)
  {
  }

  lemma ScaledAllNonNegative(xs: seq<real>, s: real)
    requires NonNegative(xs) && s > 0.0
    ensures NonNegative(Scaled(xs, s))
  {
  }

  lemma {:induction false} MintedIsSumU64(s: real, maxKwh: real, parts: seq<real>)
    requires s > 0.0 && NonNegative(parts) && AllConvert(s, maxKwh, parts) && NonNegative(Scaled(parts, s))
    ensures MintedInParts(s, maxKwh, parts) == SumU64(Scaled(parts, s))
  {
    if parts == [] {
    } else {
      var n := |parts| - 1;
      ScaledAllNonNegative(parts[..n], s);
      MintedIsSumU64(s, maxKwh, parts[..n]);
      ScaledPrefix(parts, s);
      ConvertIsToU64(s, maxKwh, parts[n]);
    }
  }

  lemma PartsConvert(s: real, maxKwh: real, parts: seq<real>)
    requires s > 0.0 && NonNegative(parts) && Convert(s, maxKwh, Total(parts)).Units?
    ensures AllConvert(s, maxKwh, parts)
  {
    ConvertIsToU64(s, maxKwh, Total(parts));
    forall i | 0 <= i < |parts| ensures Convert(s, maxKwh, parts[i]).Units? {
      PartsBelowTotal(parts, i);
      ScaledLess(parts[i], Total(parts), s);
      SmallerConverts(s, maxKwh, parts[i], Total(parts));
    }
  }

  lemma SmallerConverts(s: real, maxKwh: real, part: real, whole: real)
    requires 0.0 <= part <= whole <= maxKwh && part * s <= whole * s <= TWO_64 as real
    ensures Convert(s, maxKwh, part).Units?
  {
  }

  /** Minting n parts of a reading separately: each conversion succeeds if that of the whole
      does, the parts yield at most n − 1 units less, and more only when whole parts below 2^64
      add up to exactly 2^64 units. */
  lemma MintingInParts(c: Config, parts: seq<real>)
    requires c.ratio > 0.0 && NonNegative(parts) && parts != [] && KwhToTokens(c, Total(parts)).Units?
    ensures AllConvert(Scale(c), c.maxReadingKwh, parts)
    ensures var minted := MintedInParts(Scale(c), c.maxReadingKwh, parts); var whole := KwhToTokens(c, Total(parts)).n;
            var units := Scaled(parts, Scale(c));
            && whole <= minted + |parts| - 1
            && (minted <= whole <==> !(Total(units) == TWO_64 as real && AllWhole(units) && BelowTop(units)))
  {
    ScalePositive(c);
    ScaledMinting(Scale(c), c.maxReadingKwh, parts);
  }

  lemma ScaledMinting(s: real, maxKwh: real, parts: seq<real>)
    requires s > 0.0 && NonNegative(parts) && parts != [] && Convert(s, maxKwh, Total(parts)).Units?
    ensures AllConvert(s, maxKwh, parts)
    ensures var minted := MintedInParts(s, maxKwh, parts); var whole := Convert(s, maxKwh, Total(parts)).n;
            var units := Scaled(parts, s);
            && whole <= minted + |parts| - 1
            && (minted <= whole <==> !(Total(units) == TWO_64 as real && AllWhole(units) && BelowTop(units)))
  {
    PartsConvert(s, maxKwh, parts);
    ConvertIsToU64(s, maxKwh, Total(parts));
    ScaledAllNonNegative(parts, s);
    MintedIsSumU64(s, maxKwh, parts);
    ScaledTotal(parts, s);
    PartsAgainstWhole(Scaled(parts, s));
  }
}
