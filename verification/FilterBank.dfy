/**
 The three-band polyphase filter bank (three_band_filter_bank.cc) over the reals.

 The efficient form splits the input into three downsampled branches, filters each with four sparse
 filters and modulates with a cosine table of period 12.  The plain form filters with the 48-tap
 prototype modulated to a band and keeps every third sample (analysis), or inserts two zeros between
 samples and filters (synthesis).  Both tables are parameters.
 */
module FilterSums {

  function Total(s: seq<real>): real {
    if s == [] then 0.0 else Total(s[..|s| - 1]) + s[|s| - 1]
  }

  lemma TotalSnoc(s: seq<real>, a: real)
    ensures Total(s + [a]) == Total(s) + a
  {
    assert (s + [a])[..|s|] == s;
  }

  lemma {:induction false} TotalConcat(s: seq<real>, t: seq<real>)
    ensures Total(s + t) == Total(s) + Total(t)
    decreases |t|
  {
    if t == [] {
      assert s + t == s;
    } else {
      var t', a := t[..|t| - 1], t[|t| - 1];
      assert t == t' + [a] && s + t == (s + t') + [a];
      TotalConcat(s, t');
      TotalSnoc(s + t', a);
    }
  }

  lemma Total4(s: seq<real>)
    requires |s| == 4
    ensures Total(s) == s[0] + s[1] + s[2] + s[3]
  {
    assert s == [] + [s[0]] + [s[1]] + [s[2]] + [s[3]];
    TotalSnoc([], s[0]);
    TotalSnoc([] + [s[0]], s[1]);
    TotalSnoc([] + [s[0]] + [s[1]], s[2]);
    TotalSnoc([] + [s[0]] + [s[1]] + [s[2]], s[3]);
  }

  lemma Total12(s: seq<real>)
    requires |s| == 12
    ensures Total(s) == s[0] + s[1] + s[2] + s[3] + s[4] + s[5] + s[6] + s[7] + s[8] + s[9] + s[10] + s[11]
  {
    assert s == s[..4] + s[4..8] + s[8..];
    TotalConcat(s[..4] + s[4..8], s[8..]);
    TotalConcat(s[..4], s[4..8]);
    Total4(s[..4]);
    Total4(s[4..8]);
    Total4(s[8..]);
  }

  /** Every twelfth of 48 terms. */
  function EveryTwelfth(s: seq<real>, r: int): real
    requires |s| == 48 && 0 <= r < 12
  {
    s[r] + s[12 + r] + s[24 + r] + s[36 + r]
  }

  lemma TotalColumns(s: seq<real>)
    requires |s| == 48
    ensures Total(s) == EveryTwelfth(s, 0) + EveryTwelfth(s, 1) + EveryTwelfth(s, 2) + EveryTwelfth(s, 3)
                        + EveryTwelfth(s, 4) + EveryTwelfth(s, 5) + EveryTwelfth(s, 6) + EveryTwelfth(s, 7)
                        + EveryTwelfth(s, 8) + EveryTwelfth(s, 9) + EveryTwelfth(s, 10) + EveryTwelfth(s, 11)
  {
    var a, b := s[..24], s[24..];
    assert s == a + b && a == a[..12] + a[12..] && b == b[..12] + b[12..];
    TotalConcat(a, b);
    TotalConcat(a[..12], a[12..]);
    TotalConcat(b[..12], b[12..]);
    Total12(a[..12]);
    Total12(a[12..]);
    Total12(b[..12]);
    Total12(b[12..]);
  }

  /** The twelve passes, in the order of the loops, together collect every term. */
  lemma Regroup(terms: seq<real>, passes: seq<real>)
    requires |terms| == 48 && |passes| == 12
    requires forall s | 0 <= s < 12 :: passes[s] == EveryTwelfth(terms, 3 * (s % 4) + s / 4)
    ensures Total(passes) == Total(terms)
  {
    TotalColumns(terms);
    Total12(passes);
  }
}

module FilterBankSpec {
  import opened FilterSums
  import opened SparseFirFilters

  const NUM_BANDS := 3
  const SPARSITY := 4
  const NUM_COEFFS := 4
  const PERIOD := 12
  const NUM_TAPS := 48

  datatype RawTables = RawTables(lowpass: seq<seq<real>>, dct: seq<seq<real>>)

  /** `lowpass` is kLowpassCoeffs, `dct` is dct_modulation_; their values are left open. */
  type Tables = t: RawTables |
    && |t.lowpass| == PERIOD && (forall r | 0 <= r < PERIOD :: |t.lowpass[r]| == NUM_COEFFS)
    && |t.dct| == PERIOD && (forall r | 0 <= r < PERIOD :: |t.dct[r]| == NUM_BANDS)
    witness RawTables(seq(12, _ => [0.0, 0.0, 0.0, 0.0]), seq(12, _ => [0.0, 0.0, 0.0]))

  function Coeff(tb: Tables, r: int, k: int): real {
    if 0 <= r < PERIOD && 0 <= k < NUM_COEFFS then tb.lowpass[r][k] else 0.0
  }

  function Dct(tb: Tables, r: int, b: int): real {
    if 0 <= r < PERIOD && 0 <= b < NUM_BANDS then tb.dct[r][b] else 0.0
  }

  /** The 48-tap prototype, of which kLowpassCoeffs is the 12 by 4 reshaping. */
  function Tap(tb: Tables, t: int): real {
    Coeff(tb, t % PERIOD, t / PERIOD)
  }

  /** Sample n of SparseFIRFilter(c, 4, 4, offset) fed with x from silence. */
  function SparseFir(c: seq<real>, offset: int, x: seq<real>, n: int): real
    requires |c| == NUM_COEFFS
  {
    Total(seq(NUM_COEFFS, k => FirTerm(c, offset, x, n, k)))
  }

  function FirTerm(c: seq<real>, offset: int, x: seq<real>, n: int, k: int): real {
    At(c, k) * At(x, n - SPARSITY * k - offset)
  }

  /** Which is what the filter computes. */
  lemma FirSumIsSparseFir(c: seq<real>, offset: nat, x: seq<real>, n: int)
    requires |c| == NUM_COEFFS
    ensures FirSum(c, SPARSITY, offset, x, n, NUM_COEFFS) == SparseFir(c, offset, x, n)
  {
    var terms := seq(NUM_COEFFS, k => FirTerm(c, offset, x, n, k));
    FirSumStep(c, offset, x, n, 0);
    FirSumStep(c, offset, x, n, 1);
    FirSumStep(c, offset, x, n, 2);
    FirSumStep(c, offset, x, n, 3);
    assert FirSum(c, SPARSITY, offset, x, n, NUM_COEFFS) == terms[0] + terms[1] + terms[2] + terms[3];
    Total4(terms);
  }

  lemma FirSumStep(c: seq<real>, offset: nat, x: seq<real>, n: int, k: nat)
    requires |c| == NUM_COEFFS && k < NUM_COEFFS
    ensures FirSum(c, SPARSITY, offset, x, n, 0) == 0.0
    ensures FirSum(c, SPARSITY, offset, x, n, k + 1)
         == FirSum(c, SPARSITY, offset, x, n, k) + FirTerm(c, offset, x, n, k)
  {
    assert k * SPARSITY == SPARSITY * k;
  }

  // ---------------------------------------------------------------- analysis

  /** Branch i of the input: every third sample, starting from 2 - i. */
  function Branch(x: seq<real>, i: nat): (y: seq<real>)
    requires i < NUM_BANDS && |x| % NUM_BANDS == 0
    ensures |y| == |x| / NUM_BANDS
  {
    seq(|x| / NUM_BANDS, n requires 0 <= n < |x| / NUM_BANDS => x[NUM_BANDS * n + 2 - i])
  }

  lemma BranchAt(x: seq<real>, i: nat, n: int)
    requires i < NUM_BANDS && |x| % NUM_BANDS == 0
    ensures At(Branch(x, i), n) == At(x, NUM_BANDS * n + 2 - i)
  {
  }

  lemma BranchAppend(x: seq<real>, block: seq<real>, i: nat)
    requires i < NUM_BANDS && |x| % NUM_BANDS == 0 && |block| % NUM_BANDS == 0
    ensures Branch(x + block, i) == Branch(x, i) + Branch(block, i)
  {
    assert |x + block| / NUM_BANDS == |x| / NUM_BANDS + |block| / NUM_BANDS;
  }

  /** What pass i, j of Analysis adds to band b: branch i through filter i + 3 j, modulated. */
  function PassTerm(tb: Tables, x: seq<real>, b: int, m: int, i: nat, j: nat): real
    requires |x| % NUM_BANDS == 0 && i < NUM_BANDS && j < SPARSITY
  {
    var r := i + NUM_BANDS * j;
    Dct(tb, r, b) * SparseFir(tb.lowpass[r], j, Branch(x, i), m)
  }

  /** The passes in the order of the loops: s = 4 i + j. */
  function AnalysisPass(tb: Tables, x: seq<real>, b: int, m: int, s: int): real
    requires |x| % NUM_BANDS == 0
  {
    if 0 <= s < PERIOD then PassTerm(tb, x, b, m, s / SPARSITY, s % SPARSITY) else 0.0
  }

  /** The efficient form: the first `passes` of the twelve passes. */
  function EfficientAnalysis(tb: Tables, x: seq<real>, b: int, m: int, passes: nat): real
    requires |x| % NUM_BANDS == 0
  {
    if passes == 0 then 0.0
    else EfficientAnalysis(tb, x, b, m, passes - 1) + AnalysisPass(tb, x, b, m, passes - 1)
  }

  function Passing(tb: Tables, x: seq<real>, b: int, m: int): int -> real
    requires |x| % NUM_BANDS == 0
  {
    s => AnalysisPass(tb, x, b, m, s)
  }

  lemma {:induction false} EfficientIsTotal(tb: Tables, x: seq<real>, b: int, m: int, n: nat)
    requires |x| % NUM_BANDS == 0
    ensures EfficientAnalysis(tb, x, b, m, n) == Total(seq(n, Passing(tb, x, b, m)))
  {
    if n > 0 {
      EfficientIsTotal(tb, x, b, m, n - 1);
      TotalGrows(Passing(tb, x, b, m), n);
    }
  }

  lemma TotalGrows(f: int -> real, n: nat)
    requires n > 0
    ensures Total(seq(n, f)) == Total(seq(n - 1, f)) + f(n - 1)
  {
    SeqGrows(f, n);
    TotalSnoc(seq(n - 1, f), f(n - 1));
  }

  lemma SeqGrows(f: int -> real, n: nat)
    requires n > 0
    ensures seq(n, f) == seq(n - 1, f) + [f(n - 1)]
  {
  }

  lemma OneMorePass(tb: Tables, x: seq<real>, b: int, m: int, i: nat, j: nat)
    requires |x| % NUM_BANDS == 0 && i < NUM_BANDS && j < SPARSITY
    ensures EfficientAnalysis(tb, x, b, m, SPARSITY * i + j + 1)
         == EfficientAnalysis(tb, x, b, m, SPARSITY * i + j) + PassTerm(tb, x, b, m, i, j)
  {
    PassIndex(i, j);
  }

  lemma PassIndex(i: nat, j: nat)
    requires j < SPARSITY
    ensures (SPARSITY * i + j) / SPARSITY == i && (SPARSITY * i + j) % SPARSITY == j
  {
  }

  /** The number of a filter gives its branch and its delay. */
  lemma FilterIndex(i: nat, j: nat)
    requires i < NUM_BANDS && j < SPARSITY
    ensures var r := i + NUM_BANDS * j; r < PERIOD && r % NUM_BANDS == i && r / NUM_BANDS == j
  {
  }

  /** Three rows of the same length. */
  predicate IsGrid(g: seq<seq<real>>, len: nat) {
    |g| == NUM_BANDS && forall b | 0 <= b < NUM_BANDS :: |g[b]| == len
  }

  lemma SameGrid(g: seq<seq<real>>, h: seq<seq<real>>, len: nat)
    requires IsGrid(g, len) && IsGrid(h, len)
    requires forall b, n | 0 <= b < NUM_BANDS && 0 <= n < len :: g[b][n] == h[b][n]
    ensures g == h
  {
    assert forall b | 0 <= b < NUM_BANDS :: g[b] == h[b];
  }

  /** The efficient form of `len` samples of each band, from sample `base` on. */
  function Passes(tb: Tables, x: seq<real>, base: int, len: nat, passes: nat): (g: seq<seq<real>>)
    requires |x| % NUM_BANDS == 0
    ensures IsGrid(g, len)
    ensures forall b, n | 0 <= b < NUM_BANDS && 0 <= n < len :: g[b][n] == EfficientAnalysis(tb, x, b, base + n, passes)
  {
    seq(NUM_BANDS, b => seq(len, n => EfficientAnalysis(tb, x, b, base + n, passes)))
  }

  /** What pass i, j adds to each of them. */
  function Terms(tb: Tables, x: seq<real>, base: int, len: nat, i: nat, j: nat): (g: seq<seq<real>>)
    requires |x| % NUM_BANDS == 0 && i < NUM_BANDS && j < SPARSITY
    ensures IsGrid(g, len)
    ensures forall b, n | 0 <= b < NUM_BANDS && 0 <= n < len :: g[b][n] == PassTerm(tb, x, b, base + n, i, j)
  {
    seq(NUM_BANDS, b => seq(len, n => PassTerm(tb, x, b, base + n, i, j)))
  }

  function Plus(g: seq<seq<real>>, h: seq<seq<real>>): (sum: seq<seq<real>>)
    requires |g| == |h| == NUM_BANDS && forall b | 0 <= b < NUM_BANDS :: |g[b]| == |h[b]|
    ensures |sum| == NUM_BANDS && forall b | 0 <= b < NUM_BANDS :: |sum[b]| == |g[b]|
    ensures forall b, n | 0 <= b < NUM_BANDS && 0 <= n < |g[b]| :: sum[b][n] == g[b][n] + h[b][n]
  {
    seq(NUM_BANDS, b requires 0 <= b < NUM_BANDS => seq(|g[b]|, n requires 0 <= n < |g[b]| => g[b][n] + h[b][n]))
  }

  /** `len` samples of a filtered signal. */
  function Filtered(c: seq<real>, offset: int, x: seq<real>, base: int, len: nat): (y: seq<real>)
    requires |c| == NUM_COEFFS
    ensures |y| == len && forall n | 0 <= n < len :: y[n] == SparseFir(c, offset, x, base + n)
  {
    seq(len, n => SparseFir(c, offset, x, base + n))
  }

  lemma SumGrid(g: seq<seq<real>>, was: seq<seq<real>>, added: seq<seq<real>>, len: nat)
    requires IsGrid(g, len) && IsGrid(was, len) && IsGrid(added, len)
    requires forall b, n | 0 <= b < NUM_BANDS && 0 <= n < len :: g[b][n] == was[b][n] + added[b][n]
    ensures g == Plus(was, added)
  {
    SameGrid(g, Plus(was, added), len);
  }

  /** What filter i + 3 j makes of branch i. */
  function FilteredBranch(tb: Tables, x: seq<real>, base: int, len: nat, i: nat, j: nat): seq<real>
    requires |x| % NUM_BANDS == 0 && i < NUM_BANDS && j < SPARSITY
  {
    Filtered(tb.lowpass[i + NUM_BANDS * j], j, Branch(x, i), base, len)
  }

  /** A signal modulated with row r of the cosine table to the three bands. */
  function Spread(tb: Tables, r: nat, y: seq<real>): (g: seq<seq<real>>)
    ensures IsGrid(g, |y|)
    ensures forall b, n | 0 <= b < NUM_BANDS && 0 <= n < |y| :: g[b][n] == Dct(tb, r, b) * y[n]
  {
    seq(NUM_BANDS, b => seq(|y|, n requires 0 <= n < |y| => Dct(tb, r, b) * y[n]))
  }

  lemma SpreadIsTerms(tb: Tables, x: seq<real>, base: int, len: nat, i: nat, j: nat)
    requires |x| % NUM_BANDS == 0 && i < NUM_BANDS && j < SPARSITY
    ensures Spread(tb, i + NUM_BANDS * j, FilteredBranch(tb, x, base, len, i, j)) == Terms(tb, x, base, len, i, j)
  {
    SameGrid(Spread(tb, i + NUM_BANDS * j, FilteredBranch(tb, x, base, len, i, j)), Terms(tb, x, base, len, i, j), len);
  }

  lemma MorePasses(tb: Tables, x: seq<real>, base: int, len: nat, i: nat, j: nat)
    requires |x| % NUM_BANDS == 0 && i < NUM_BANDS && j < SPARSITY
    ensures Plus(Passes(tb, x, base, len, SPARSITY * i + j), Terms(tb, x, base, len, i, j))
         == Passes(tb, x, base, len, SPARSITY * i + (j + 1))
  {
    var g, h := Passes(tb, x, base, len, SPARSITY * i + j), Terms(tb, x, base, len, i, j);
    forall b, n | 0 <= b < NUM_BANDS && 0 <= n < len
      ensures Plus(g, h)[b][n] == EfficientAnalysis(tb, x, b, base + n, SPARSITY * i + (j + 1))
    {
      OneMorePass(tb, x, b, base + n, i, j);
    }
    SameGrid(Plus(g, h), Passes(tb, x, base, len, SPARSITY * i + (j + 1)), len);
  }

  function AnalysisTap(tb: Tables, x: seq<real>, b: int, m: int, t: int): real {
    Tap(tb, t) * Dct(tb, t % PERIOD, b) * At(x, NUM_BANDS * m + 2 - t)
  }

  /** The plain form: the modulated prototype applied to the input, every third sample kept. */
  function DirectAnalysis(tb: Tables, x: seq<real>, b: int, m: int): real {
    Total(seq(NUM_TAPS, t => AnalysisTap(tb, x, b, m, t)))
  }

  /** The plain form of `len` samples of each band, from sample `base` on. */
  function DirectBands(tb: Tables, x: seq<real>, base: int, len: nat): (g: seq<seq<real>>)
    ensures IsGrid(g, len)
    ensures forall b, n | 0 <= b < NUM_BANDS && 0 <= n < len :: g[b][n] == DirectAnalysis(tb, x, b, base + n)
  {
    seq(NUM_BANDS, b => seq(len, n => DirectAnalysis(tb, x, b, base + n)))
  }

  lemma TapSplit(tb: Tables, r: nat, k: nat)
    requires r < PERIOD && k < NUM_COEFFS
    ensures var t := PERIOD * k + r; t % PERIOD == r && Tap(tb, t) == tb.lowpass[r][k]
  {
    assert (PERIOD * k + r) / PERIOD == k;
  }

  /** One coefficient of a pass is one tap of the prototype. */
  lemma CoefficientIsTap(tb: Tables, x: seq<real>, b: int, m: int, i: nat, j: nat, k: nat, r: nat)
    requires |x| % NUM_BANDS == 0 && i < NUM_BANDS && j < SPARSITY && k < NUM_COEFFS && r == NUM_BANDS * j + i
    ensures Dct(tb, r, b) * FirTerm(tb.lowpass[r], j, Branch(x, i), m, k) == AnalysisTap(tb, x, b, m, PERIOD * k + r)
  {
    BranchAt(x, i, m - SPARSITY * k - j);
    TapSplit(tb, r, k);
    assert NUM_BANDS * (m - SPARSITY * k - j) + 2 - i == NUM_BANDS * m + 2 - (PERIOD * k + r);
    Rearrange(Dct(tb, r, b), tb.lowpass[r][k], At(x, NUM_BANDS * m + 2 - (PERIOD * k + r)));
  }

  lemma Rearrange(d: real, c: real, a: real)
    ensures d * (c * a) == c * d * a
  {
  }

  lemma Distribute4(d: real, a: seq<real>, t: seq<real>)
    requires |a| == 4 && |t| == 4
    requires forall k | 0 <= k < 4 :: d * a[k] == t[k]
    ensures d * Total(a) == t[0] + t[1] + t[2] + t[3]
  {
    Total4(a);
    assert d * (a[0] + a[1] + a[2] + a[3]) == d * a[0] + d * a[1] + d * a[2] + d * a[3];
  }

  ghost predicate ScaledTerms(d: real, c: seq<real>, offset: int, y: seq<real>, m: int, taps: seq<real>, r: nat) {
    && |c| == NUM_COEFFS && |taps| == NUM_TAPS && r < PERIOD
    && forall k | 0 <= k < NUM_COEFFS :: d * FirTerm(c, offset, y, m, k) == taps[PERIOD * k + r]
  }

  /** A scaled sparse filter whose four terms are every twelfth of `taps`. */
  lemma ScaledFir(d: real, c: seq<real>, offset: int, y: seq<real>, m: int, taps: seq<real>, r: nat)
    requires ScaledTerms(d, c, offset, y, m, taps, r)
    ensures d * SparseFir(c, offset, y, m) == EveryTwelfth(taps, r)
  {
    Distribute4(d, seq(NUM_COEFFS, k => FirTerm(c, offset, y, m, k)),
                [taps[r], taps[12 + r], taps[24 + r], taps[36 + r]]);
  }

  ghost predicate AreTaps(taps: seq<real>, tb: Tables, x: seq<real>, b: int, m: int) {
    taps == seq(NUM_TAPS, t => AnalysisTap(tb, x, b, m, t))
  }

  lemma CoefficientsAreTaps(taps: seq<real>, tb: Tables, x: seq<real>, b: int, m: int, i: nat, j: nat, r: nat)
    requires |x| % NUM_BANDS == 0 && i < NUM_BANDS && j < SPARSITY && r == NUM_BANDS * j + i
    requires AreTaps(taps, tb, x, b, m)
    ensures ScaledTerms(Dct(tb, r, b), tb.lowpass[r], j, Branch(x, i), m, taps, r)
  {
    forall k | 0 <= k < NUM_COEFFS
      ensures Dct(tb, r, b) * FirTerm(tb.lowpass[r], j, Branch(x, i), m, k) == taps[PERIOD * k + r]
    {
      CoefficientIsTap(tb, x, b, m, i, j, k, r);
    }
  }

  /** One pass collects every twelfth tap. */
  lemma PassIsTaps(taps: seq<real>, tb: Tables, x: seq<real>, b: int, m: int, i: nat, j: nat, r: nat)
    requires |x| % NUM_BANDS == 0 && i < NUM_BANDS && j < SPARSITY && r == NUM_BANDS * j + i
    requires AreTaps(taps, tb, x, b, m)
    ensures |taps| == NUM_TAPS && PassTerm(tb, x, b, m, i, j) == EveryTwelfth(taps, r)
  {
    CoefficientsAreTaps(taps, tb, x, b, m, i, j, r);
    ScaledFir(Dct(tb, r, b), tb.lowpass[r], j, Branch(x, i), m, taps, r);
  }

  /** The noble identity: the efficient analysis computes the plain form. */
  lemma AnalysisNobleIdentity(tb: Tables, x: seq<real>, b: int, m: int)
    requires |x| % NUM_BANDS == 0
    ensures EfficientAnalysis(tb, x, b, m, PERIOD) == DirectAnalysis(tb, x, b, m)
  {
    var taps := seq(NUM_TAPS, t => AnalysisTap(tb, x, b, m, t));
    var passes := seq(PERIOD, Passing(tb, x, b, m));
    forall s | 0 <= s < 12
      ensures passes[s] == EveryTwelfth(taps, 3 * (s % 4) + s / 4)
    {
      PassIsTaps(taps, tb, x, b, m, s / 4, s % 4, 3 * (s % 4) + s / 4);
    }
    Regroup(taps, passes);
    EfficientIsTotal(tb, x, b, m, PERIOD);
  }

  /** Input that comes later does not change a sample already put out, so the outputs of successive
      blocks together are the plain form of the whole input. */
  lemma AnalysisCausal(tb: Tables, x: seq<real>, later: seq<real>, b: int, m: int)
    requires NUM_BANDS * m + 2 < |x|
    ensures DirectAnalysis(tb, x + later, b, m) == DirectAnalysis(tb, x, b, m)
  {
    forall t | 0 <= t < NUM_TAPS
      ensures AnalysisTap(tb, x + later, b, m, t) == AnalysisTap(tb, x, b, m, t)
    {
      assert At(x + later, NUM_BANDS * m + 2 - t) == At(x, NUM_BANDS * m + 2 - t);
    }
    assert seq(NUM_TAPS, t => AnalysisTap(tb, x + later, b, m, t)) == seq(NUM_TAPS, t => AnalysisTap(tb, x, b, m, t));
  }

  // ---------------------------------------------------------------- synthesis

  /** Three signals of one length. */
  predicate IsBands(bands: seq<seq<real>>) {
    |bands| == NUM_BANDS && |bands[0]| == |bands[1]| == |bands[2]|
  }

  function Mix(tb: Tables, r: int, u0: real, u1: real, u2: real): real {
    Dct(tb, r, 0) * u0 + Dct(tb, r, 1) * u1 + Dct(tb, r, 2) * u2
  }

  /** The bands modulated with row r of the cosine table. */
  function Modulated(tb: Tables, bands: seq<seq<real>>, r: int): (y: seq<real>)
    requires IsBands(bands)
    ensures |y| == |bands[0]|
  {
    seq(|bands[0]|, n requires 0 <= n < |bands[0]| => Mix(tb, r, bands[0][n], bands[1][n], bands[2][n]))
  }

  function Joined(bands: seq<seq<real>>, block: seq<seq<real>>): seq<seq<real>>
    requires IsBands(bands) && IsBands(block)
  {
    [bands[0] + block[0], bands[1] + block[1], bands[2] + block[2]]
  }

  lemma ModulatedAppend(tb: Tables, bands: seq<seq<real>>, block: seq<seq<real>>, r: int)
    requires IsBands(bands) && IsBands(block)
    ensures Modulated(tb, Joined(bands, block), r) == Modulated(tb, bands, r) + Modulated(tb, block, r)
  {
  }

  lemma ModulatedAt(tb: Tables, bands: seq<seq<real>>, r: int, n: int)
    requires IsBands(bands)
    ensures At(Modulated(tb, bands, r), n) == Mix(tb, r, At(bands[0], n), At(bands[1], n), At(bands[2], n))
  {
  }

  /** What pass i, j of Synthesis adds to output sample 3 m + i. */
  function SynthesisPass(tb: Tables, bands: seq<seq<real>>, i: nat, m: int, j: nat): real
    requires IsBands(bands) && i < NUM_BANDS && j < SPARSITY
  {
    var r := i + NUM_BANDS * j;
    3.0 * SparseFir(tb.lowpass[r], j, Modulated(tb, bands, r), m)
  }

  /** The efficient form: the first `passes` of the four passes that reach output sample 3 m + i. */
  function EfficientSynthesis(tb: Tables, bands: seq<seq<real>>, i: nat, m: int, passes: nat): real
    requires IsBands(bands) && i < NUM_BANDS && passes <= SPARSITY
  {
    if passes == 0 then 0.0
    else EfficientSynthesis(tb, bands, i, m, passes - 1) + SynthesisPass(tb, bands, i, m, passes - 1)
  }

  /** A band with two zeros inserted after each sample. */
  function Upsampled(x: seq<real>, n: int): real {
    if n % NUM_BANDS == 0 then At(x, n / NUM_BANDS) else 0.0
  }

  function SynthesisTap(tb: Tables, bands: seq<seq<real>>, n: int, t: int): real
    requires IsBands(bands)
  {
    Tap(tb, t) *
    Mix(tb, t % PERIOD, Upsampled(bands[0], n - t), Upsampled(bands[1], n - t), Upsampled(bands[2], n - t))
  }

  /** The plain form: interpolate each band, filter with its modulated prototype, add up, scale by 3. */
  function DirectSynthesis(tb: Tables, bands: seq<seq<real>>, n: int): real
    requires IsBands(bands)
  {
    3.0 * Total(seq(NUM_TAPS, t => SynthesisTap(tb, bands, n, t)))
  }

  lemma SynthesisCausal(tb: Tables, bands: seq<seq<real>>, later: seq<seq<real>>, n: int)
    requires IsBands(bands) && IsBands(later) && n < NUM_BANDS * |bands[0]|
    ensures DirectSynthesis(tb, Joined(bands, later), n) == DirectSynthesis(tb, bands, n)
  {
    forall t | 0 <= t < NUM_TAPS
      ensures SynthesisTap(tb, Joined(bands, later), n, t) == SynthesisTap(tb, bands, n, t)
    {
      forall b | 0 <= b < NUM_BANDS
        ensures Upsampled(Joined(bands, later)[b], n - t) == Upsampled(bands[b], n - t)
      {
        assert (n - t) / NUM_BANDS < |bands[b]|;
      }
    }
    assert seq(NUM_TAPS, t => SynthesisTap(tb, Joined(bands, later), n, t))
        == seq(NUM_TAPS, t => SynthesisTap(tb, bands, n, t));
  }

  lemma TapOfZeros(tb: Tables, bands: seq<seq<real>>, n: int, t: int)
    requires IsBands(bands) && (n - t) % NUM_BANDS != 0
    ensures SynthesisTap(tb, bands, n, t) == 0.0
  {
  }

  lemma CoefficientIsSynthesisTap(tb: Tables, bands: seq<seq<real>>, i: nat, m: int, j: nat, k: nat, r: nat)
    requires IsBands(bands) && i < NUM_BANDS && j < SPARSITY && k < NUM_COEFFS && r == NUM_BANDS * j + i
    ensures FirTerm(tb.lowpass[r], j, Modulated(tb, bands, r), m, k)
         == SynthesisTap(tb, bands, NUM_BANDS * m + i, PERIOD * k + r)
  {
    TapSplit(tb, r, k);
    var q := m - SPARSITY * k - j;
    assert NUM_BANDS * m + i - (PERIOD * k + r) == NUM_BANDS * q;
    assert (NUM_BANDS * q) % NUM_BANDS == 0 && (NUM_BANDS * q) / NUM_BANDS == q;
    ModulatedAt(tb, bands, r, q);
  }

  ghost predicate AreSynthesisTaps(taps: seq<real>, tb: Tables, bands: seq<seq<real>>, n: int)
    requires IsBands(bands)
  {
    taps == seq(NUM_TAPS, t => SynthesisTap(tb, bands, n, t))
  }

  /** A column of taps at the phase of the output sample is one pass, up to the factor 3. */
  lemma ColumnIsPass(taps: seq<real>, tb: Tables, bands: seq<seq<real>>, i: nat, m: int, j: nat, r: nat)
    requires IsBands(bands) && i < NUM_BANDS && j < SPARSITY && r == NUM_BANDS * j + i
    requires AreSynthesisTaps(taps, tb, bands, NUM_BANDS * m + i)
    ensures |taps| == NUM_TAPS && SynthesisPass(tb, bands, i, m, j) == 3.0 * EveryTwelfth(taps, r)
  {
    var c, y := tb.lowpass[r], Modulated(tb, bands, r);
    forall k | 0 <= k < NUM_COEFFS
      ensures 1.0 * FirTerm(c, j, y, m, k) == taps[PERIOD * k + r]
    {
      CoefficientIsSynthesisTap(tb, bands, i, m, j, k, r);
    }
    ScaledFir(1.0, c, j, y, m, taps, r);
  }

  lemma OffPhase(i: nat, m: int, r: nat)
    requires i < NUM_BANDS && r % NUM_BANDS != i
    ensures var n := NUM_BANDS * m + i;
            && (n - r) % NUM_BANDS != 0 && (n - (12 + r)) % NUM_BANDS != 0
            && (n - (24 + r)) % NUM_BANDS != 0 && (n - (36 + r)) % NUM_BANDS != 0
  {
  }

  /** The other columns meet only inserted zeros. */
  lemma ColumnOfZeros(taps: seq<real>, tb: Tables, bands: seq<seq<real>>, i: nat, m: int, r: nat)
    requires IsBands(bands) && i < NUM_BANDS && r < PERIOD && r % NUM_BANDS != i
    requires AreSynthesisTaps(taps, tb, bands, NUM_BANDS * m + i)
    ensures |taps| == NUM_TAPS && EveryTwelfth(taps, r) == 0.0
  {
    var n := NUM_BANDS * m + i;
    OffPhase(i, m, r);
    TapOfZeros(tb, bands, n, r);
    TapOfZeros(tb, bands, n, 12 + r);
    TapOfZeros(tb, bands, n, 24 + r);
    TapOfZeros(tb, bands, n, 36 + r);
  }

  /** The noble identity for the synthesis. */
  lemma SynthesisNobleIdentity(tb: Tables, bands: seq<seq<real>>, i: nat, m: int)
    requires IsBands(bands) && i < NUM_BANDS
    ensures EfficientSynthesis(tb, bands, i, m, SPARSITY) == DirectSynthesis(tb, bands, NUM_BANDS * m + i)
  {
    var taps := seq(NUM_TAPS, t => SynthesisTap(tb, bands, NUM_BANDS * m + i, t));
    TotalColumns(taps);
    forall r | 0 <= r < PERIOD && r % NUM_BANDS != i
      ensures EveryTwelfth(taps, r) == 0.0
    {
      ColumnOfZeros(taps, tb, bands, i, m, r);
    }
    ColumnIsPass(taps, tb, bands, i, m, 0, i);
    ColumnIsPass(taps, tb, bands, i, m, 1, 3 + i);
    ColumnIsPass(taps, tb, bands, i, m, 2, 6 + i);
    ColumnIsPass(taps, tb, bands, i, m, 3, 9 + i);
    FourPasses(tb, bands, i, m);
  }

  /** How many of its four passes an output sample of phase p has had before pass i, j. */
  function PassesDone(p: nat, i: nat, j: nat): nat {
    if p < i then SPARSITY else if p == i then j else 0
  }

  /** 3 len output samples, with the passes before pass i, j. */
  function PartialOutput(tb: Tables, bands: seq<seq<real>>, base: int, len: nat, i: nat, j: nat): (z: seq<real>)
    requires IsBands(bands) && j <= SPARSITY
    ensures |z| == NUM_BANDS * len
    ensures forall n | 0 <= n < |z| ::
              z[n] == EfficientSynthesis(tb, bands, n % NUM_BANDS, base + n / NUM_BANDS,
                                         PassesDone(n % NUM_BANDS, i, j))
  {
    seq(NUM_BANDS * len, n requires 0 <= n =>
      EfficientSynthesis(tb, bands, n % NUM_BANDS, base + n / NUM_BANDS, PassesDone(n % NUM_BANDS, i, j)))
  }

  /** What filter i + 3 j makes of the modulated bands. */
  function FilteredMix(tb: Tables, bands: seq<seq<real>>, base: int, len: nat, i: nat, j: nat): seq<real>
    requires IsBands(bands) && i < NUM_BANDS && j < SPARSITY
  {
    Filtered(tb.lowpass[i + NUM_BANDS * j], j, Modulated(tb, bands, i + NUM_BANDS * j), base, len)
  }

  /** `z` with three times `y` added to every third sample. */
  function Widened(z: seq<real>, y: seq<real>, offset: nat): (w: seq<real>)
    requires |z| == NUM_BANDS * |y|
    ensures |w| == |z|
    ensures forall n | 0 <= n < |z| :: w[n] == z[n] + if n % NUM_BANDS == offset then 3.0 * y[n / NUM_BANDS] else 0.0
  {
    seq(|z|, n requires 0 <= n < |z| => z[n] + if n % NUM_BANDS == offset then 3.0 * y[n / NUM_BANDS] else 0.0)
  }

  lemma MoreOutput(tb: Tables, bands: seq<seq<real>>, base: int, len: nat, i: nat, j: nat)
    requires IsBands(bands) && i < NUM_BANDS && j < SPARSITY
    ensures Widened(PartialOutput(tb, bands, base, len, i, j), FilteredMix(tb, bands, base, len, i, j), i)
         == PartialOutput(tb, bands, base, len, i, j + 1)
  {
    var z, z', y := PartialOutput(tb, bands, base, len, i, j), PartialOutput(tb, bands, base, len, i, j + 1),
                    FilteredMix(tb, bands, base, len, i, j);
    forall n | 0 <= n < NUM_BANDS * len
      ensures Widened(z, y, i)[n] == z'[n]
    {
      if n % NUM_BANDS == i {
        assert 3.0 * y[n / NUM_BANDS] == SynthesisPass(tb, bands, i, base + n / NUM_BANDS, j);
      }
    }
  }

  /** The plain form of `len` output samples, from sample `base` on. */
  function DirectOutput(tb: Tables, bands: seq<seq<real>>, base: int, len: nat): (z: seq<real>)
    requires IsBands(bands)
    ensures |z| == len && forall n | 0 <= n < len :: z[n] == DirectSynthesis(tb, bands, base + n)
  {
    seq(len, n => DirectSynthesis(tb, bands, base + n))
  }

  lemma AllPassesAreDirect(tb: Tables, x: seq<real>, base: int, len: nat)
    requires |x| % NUM_BANDS == 0
    ensures Passes(tb, x, base, len, PERIOD) == DirectBands(tb, x, base, len)
  {
    var g, h := Passes(tb, x, base, len, PERIOD), DirectBands(tb, x, base, len);
    forall b, n | 0 <= b < NUM_BANDS && 0 <= n < len
      ensures g[b][n] == h[b][n]
    {
      AnalysisNobleIdentity(tb, x, b, base + n);
    }
    SameGrid(g, h, len);
  }

  lemma AllOutputIsDirect(tb: Tables, bands: seq<seq<real>>, base: int, len: nat)
    requires IsBands(bands)
    ensures PartialOutput(tb, bands, base, len, NUM_BANDS, 0)
         == DirectOutput(tb, bands, NUM_BANDS * base, NUM_BANDS * len)
  {
    var z, w := PartialOutput(tb, bands, base, len, NUM_BANDS, 0),
                DirectOutput(tb, bands, NUM_BANDS * base, NUM_BANDS * len);
    forall n | 0 <= n < NUM_BANDS * len
      ensures z[n] == w[n]
    {
      SynthesisNobleIdentity(tb, bands, n % NUM_BANDS, base + n / NUM_BANDS);
      assert NUM_BANDS * (base + n / NUM_BANDS) + n % NUM_BANDS == NUM_BANDS * base + n;
    }
  }

  lemma FourPasses(tb: Tables, bands: seq<seq<real>>, i: nat, m: int)
    requires IsBands(bands) && i < NUM_BANDS
    ensures EfficientSynthesis(tb, bands, i, m, SPARSITY) ==
            SynthesisPass(tb, bands, i, m, 0) + SynthesisPass(tb, bands, i, m, 1)
              + SynthesisPass(tb, bands, i, m, 2) + SynthesisPass(tb, bands, i, m, 3)
  {
    assert EfficientSynthesis(tb, bands, i, m, 1) == SynthesisPass(tb, bands, i, m, 0);
    assert EfficientSynthesis(tb, bands, i, m, 2)
        == EfficientSynthesis(tb, bands, i, m, 1) + SynthesisPass(tb, bands, i, m, 1);
    assert EfficientSynthesis(tb, bands, i, m, 3)
        == EfficientSynthesis(tb, bands, i, m, 2) + SynthesisPass(tb, bands, i, m, 2);
  }
}

module ThreeBandFilterBank {
  import opened SparseFirFilters
  import opened FilterBankSpec

  /** Takes every third sample of `input`, starting from `offset`. */
  method Downsample(input: array<real>, offset: nat, output: array<real>)
    requires offset < NUM_BANDS && input.Length == NUM_BANDS * output.Length && input != output
    modifies output
    ensures forall n | 0 <= n < output.Length :: output[n] == input[NUM_BANDS * n + offset]
  {
    for n := 0 to output.Length
      invariant forall q | 0 <= q < n :: output[q] == input[NUM_BANDS * q + offset]
    {
      output[n] := input[NUM_BANDS * n + offset];
    }
  }

  /** Adds `input`, scaled by 3, to every third sample of `output`, starting from `offset`. */
  method Upsample(input: array<real>, offset: nat, output: array<real>)
    requires offset < NUM_BANDS && output.Length == NUM_BANDS * input.Length && input != output
    modifies output
    ensures output[..] == Widened(old(output[..]), input[..], offset)
  {
    for i := 0 to input.Length
      invariant forall n | 0 <= n < output.Length ::
                  output[n] == old(output[n]) +
                               if n % NUM_BANDS == offset && n / NUM_BANDS < i then 3.0 * input[n / NUM_BANDS] else 0.0
    {
      var n := NUM_BANDS * i + offset;
      assert n % NUM_BANDS == offset && n / NUM_BANDS == i;
      output[n] := output[n] + 3.0 * input[i];
    }
  }

  /** Twelve filters for the rows of the coefficient table, each delayed by its place, which share nothing. */
  ghost predicate Layout(tb: Tables, fs: seq<SparseFirFilter>, parts: set<object>) {
    && |fs| == PERIOD
    && (forall r | 0 <= r < PERIOD ::
          && fs[r].coeffs == tb.lowpass[r] && fs[r].sparsity == SPARSITY && fs[r].offset == r / NUM_BANDS
          && fs[r] in parts && fs[r].state in parts)
    && forall q, r | 0 <= q < r < PERIOD :: fs[q] != fs[r] && fs[q].state != fs[r].state
  }

  /** Filter r has been fed inputs[r]. */
  ghost predicate Fed(tb: Tables, fs: seq<SparseFirFilter>, parts: set<object>, inputs: seq<seq<real>>)
    reads parts
  {
    && Layout(tb, fs, parts) && |inputs| == PERIOD
    && forall r | 0 <= r < PERIOD :: fs[r].Valid() && fs[r].history == inputs[r]
  }

  /** Makes the filters, in the order of the constructor's loops. */
  method MakeFilters(tb: Tables) returns (fs: seq<SparseFirFilter>, ghost parts: set<object>)
    ensures fresh(parts) && Fed(tb, fs, parts, seq(PERIOD, _ => []))
  {
    fs, parts := [], {};
    for r := 0 to PERIOD
      invariant |fs| == r && fresh(parts)
      invariant forall q | 0 <= q < r ::
                  && fs[q].coeffs == tb.lowpass[q] && fs[q].sparsity == SPARSITY && fs[q].offset == q / NUM_BANDS
                  && fs[q] in parts && fs[q].state in parts && fs[q].Valid() && fs[q].history == []
      invariant forall q, q' | 0 <= q < q' < r :: fs[q] != fs[q'] && fs[q].state != fs[q'].state
    {
      var f := new SparseFirFilter(tb.lowpass[r], SPARSITY, r / NUM_BANDS);
      fs, parts := fs + [f], parts + {f, f.state};
    }
  }

  /** Runs one filter and leaves the others alone. */
  method Feed(ghost tb: Tables, fs: seq<SparseFirFilter>, ghost parts: set<object>, ghost inputs: seq<seq<real>>,
              r: nat, input: array<real>, output: array<real>)
    requires Fed(tb, fs, parts, inputs) && r < PERIOD
    requires input.Length == output.Length && input != output && input !in parts && output !in parts
    modifies parts, output
    ensures Fed(tb, fs, parts, inputs[r := inputs[r] + input[..]])
    ensures output[..] == Filtered(tb.lowpass[r], r / NUM_BANDS, inputs[r] + input[..], |inputs[r]|, output.Length)
  {
    ghost var x := inputs[r] + input[..];
    fs[r].Filter(input, output);
    forall n | 0 <= n < output.Length
      ensures output[n] == SparseFir(tb.lowpass[r], r / NUM_BANDS, x, |inputs[r]| + n)
    {
      FirSumIsSparseFir(tb.lowpass[r], r / NUM_BANDS, x, |inputs[r]| + n);
    }
  }

  class FilterBank {
    const tables: Tables
    const inBuffer: array<real>
    const outBuffer: array<real>
    const analysisFilters: seq<SparseFirFilter>
    const synthesisFilters: seq<SparseFirFilter>

    /** The filters and their state. */
    ghost const analysisParts: set<object>
    ghost const synthesisParts: set<object>

    /** What each filter has been fed. */
    ghost var analysisInputs: seq<seq<real>>
    ghost var synthesisInputs: seq<seq<real>>

    /** All input of Analysis and of Synthesis so far. */
    ghost var analyzed: seq<real>
    ghost var synthesized: seq<seq<real>>

    /** What belongs to the filter bank, and is nobody else's. */
    ghost function Own(): set<object> {
      analysisParts + synthesisParts + {inBuffer, outBuffer}
    }

    ghost predicate Scratch() {
      && inBuffer != outBuffer && inBuffer.Length == outBuffer.Length
      && analysisParts !! synthesisParts && this !in analysisParts && this !in synthesisParts
      && inBuffer !in analysisParts && outBuffer !in analysisParts
      && inBuffer !in synthesisParts && outBuffer !in synthesisParts
    }

    /** The analysis filters have been fed the branches of `x`. */
    ghost predicate Analyzed(x: seq<real>)
      reads this`analysisInputs, analysisParts
    {
      && |x| % NUM_BANDS == 0
      && Fed(tables, analysisFilters, analysisParts, analysisInputs)
      && forall r | 0 <= r < PERIOD :: analysisInputs[r] == Branch(x, r % NUM_BANDS)
    }

    /** The synthesis filters have been fed the modulated `bands`. */
    ghost predicate Synthesized(bands: seq<seq<real>>)
      reads this`synthesisInputs, synthesisParts
    {
      && IsBands(bands)
      && Fed(tables, synthesisFilters, synthesisParts, synthesisInputs)
      && forall r | 0 <= r < PERIOD :: synthesisInputs[r] == Modulated(tables, bands, r)
    }

    /** Nothing is said about what the scratch buffers hold. */
    ghost predicate Valid()
      reads this, analysisParts, synthesisParts
    {
      Scratch() && Analyzed(analyzed) && Synthesized(synthesized)
    }

    constructor (tables: Tables, length: nat)
      requires length % NUM_BANDS == 0
      ensures Valid() && fresh(Own())
      ensures this.tables == tables && inBuffer.Length == length / NUM_BANDS
      ensures analyzed == [] && synthesized == [[], [], []]
    {
      this.tables := tables;
      inBuffer := new real[length / NUM_BANDS];
      outBuffer := new real[length / NUM_BANDS];
      var forAnalysis, ofAnalysis := MakeFilters(tables);
      var forSynthesis, ofSynthesis := MakeFilters(tables);
      analysisFilters, analysisParts := forAnalysis, ofAnalysis;
      synthesisFilters, synthesisParts := forSynthesis, ofSynthesis;
      analysisInputs := seq(PERIOD, _ => []);
      synthesisInputs := seq(PERIOD, _ => []);
      analyzed := [];
      synthesized := [[], [], []];
    }

    /** Adds `input`, modulated with row r of the cosine table, to one band of `out`. */
    method DownModulateBand(input: array<real>, r: nat, i: nat, out: array2<real>)
      requires r < PERIOD && i < NUM_BANDS && out.Length0 == NUM_BANDS && out.Length1 == input.Length
      modifies out
      ensures forall n | 0 <= n < input.Length :: out[i, n] == old(out[i, n]) + Spread(tables, r, input[..])[i][n]
      ensures forall b, n | 0 <= b < NUM_BANDS && b != i && 0 <= n < input.Length :: out[b, n] == old(out[b, n])
    {
      ghost var added := Spread(tables, r, input[..]);
      for j := 0 to input.Length
        invariant forall n | 0 <= n < j :: out[i, n] == old(out[i, n]) + added[i][n]
        invariant forall n | j <= n < input.Length :: out[i, n] == old(out[i, n])
        invariant forall b, n | 0 <= b < NUM_BANDS && b != i && 0 <= n < input.Length :: out[b, n] == old(out[b, n])
      {
        var term := tables.dct[r][i] * input[j];
        assert term == added[i][j];
        out[i, j] := out[i, j] + term;
      }
    }

    /** Adds `input`, modulated with row r of the cosine table, to each band of `out`. */
    method DownModulate(input: array<real>, r: nat, out: array2<real>)
      requires r < PERIOD && out.Length0 == NUM_BANDS && out.Length1 == input.Length
      modifies out
      ensures Rows(out) == Plus(old(Rows(out)), Spread(tables, r, input[..]))
    {
      ghost var was, added := Rows(out), Spread(tables, r, input[..]);
      for i := 0 to NUM_BANDS
        invariant forall b, n | 0 <= b < i && 0 <= n < input.Length :: out[b, n] == was[b][n] + added[b][n]
        invariant forall b, n | i <= b < NUM_BANDS && 0 <= n < input.Length :: out[b, n] == was[b][n]
      {
        DownModulateBand(input, r, i, out);
      }
      SumGrid(Rows(out), was, added, input.Length);
    }

    /** Pass i, j of the loops of Analysis comes after the one that runs filter r. */
    static ghost predicate Done(r: nat, i: nat, j: nat) {
      r % NUM_BANDS < i || (r % NUM_BANDS == i && r / NUM_BANDS < j)
    }

    /** What the filters have been fed in the middle of Analysis of `block` after `x`: those of the passes done
        have had it. */
    static ghost predicate BranchesFed(inputs: seq<seq<real>>, x: seq<real>, block: seq<real>, i: nat, j: nat) {
      && |inputs| == PERIOD && |x| % NUM_BANDS == 0 && |block| % NUM_BANDS == 0
      && forall r | 0 <= r < PERIOD :: inputs[r] == Branch(if Done(r, i, j) then x + block else x, r % NUM_BANDS)
    }

    static lemma NextBranchFed(inputs: seq<seq<real>>, x: seq<real>, block: seq<real>, i: nat, j: nat)
      requires i < NUM_BANDS && j < SPARSITY && BranchesFed(inputs, x, block, i, j)
      ensures var r := i + NUM_BANDS * j;
              && inputs[r] + Branch(block, i) == Branch(x + block, i) && |inputs[r]| == |x| / NUM_BANDS
              && BranchesFed(inputs[r := Branch(x + block, i)], x, block, i, j + 1)
    {
      var r := i + NUM_BANDS * j;
      FilterIndex(i, j);
      BranchAppend(x, block, i);
      forall q | 0 <= q < PERIOD && q != r
        ensures Done(q, i, j + 1) == Done(q, i, j)
      {
      }
    }

    /** In the middle of Analysis of `block`. */
    ghost predicate AnalysisUnderWay(block: seq<real>, i: nat, j: nat)
      reads this`analyzed, this`analysisInputs, analysisParts
    {
      && Scratch()
      && |block| == NUM_BANDS * inBuffer.Length
      && Fed(tables, analysisFilters, analysisParts, analysisInputs)
      && BranchesFed(analysisInputs, analyzed, block, i, j)
    }

    /** `out` holds the passes before pass i, j. */
    ghost predicate Accumulated(out: array2<real>, block: seq<real>, i: nat, j: nat)
      reads this`analyzed, out
    {
      && out.Length0 == NUM_BANDS && out.Length1 == inBuffer.Length
      && |analyzed| % NUM_BANDS == 0 && |block| % NUM_BANDS == 0
      && Rows(out) == Passes(tables, analyzed + block, |analyzed| / NUM_BANDS, out.Length1, SPARSITY * i + j)
    }

    /** Runs filter i + 3 j on the branch in the scratch buffer. */
    method RunAnalysisFilter(i: nat, j: nat, ghost block: seq<real>)
      requires i < NUM_BANDS && j < SPARSITY
      requires AnalysisUnderWay(block, i, j) && inBuffer[..] == Branch(block, i)
      modifies this`analysisInputs, analysisParts, outBuffer
      ensures AnalysisUnderWay(block, i, j + 1)
      ensures outBuffer[..] == FilteredBranch(tables, analyzed + block, |analyzed| / NUM_BANDS, outBuffer.Length, i, j)
    {
      var r := i + NUM_BANDS * j;
      FilterIndex(i, j);
      NextBranchFed(analysisInputs, analyzed, block, i, j);
      Feed(tables, analysisFilters, analysisParts, analysisInputs, r, inBuffer, outBuffer);
      analysisInputs := analysisInputs[r := analysisInputs[r] + inBuffer[..]];
    }

    /** One pass of the inner loop adds its term to every band. */
    method AnalysisPass(i: nat, j: nat, out: array2<real>, ghost block: seq<real>)
      requires i < NUM_BANDS && j < SPARSITY
      requires out.Length0 == NUM_BANDS && out.Length1 == inBuffer.Length && out !in Own()
      requires AnalysisUnderWay(block, i, j) && inBuffer[..] == Branch(block, i)
      modifies this`analysisInputs, analysisParts, outBuffer, out
      ensures AnalysisUnderWay(block, i, j + 1)
      ensures Rows(out)
           == Plus(old(Rows(out)), Terms(tables, analyzed + block, |analyzed| / NUM_BANDS, out.Length1, i, j))
    {
      ghost var was := Rows(out);
      RunAnalysisFilter(i, j, block);
      assert Rows(out) == was;
      SpreadIsTerms(tables, analyzed + block, |analyzed| / NUM_BANDS, out.Length1, i, j);
      DownModulate(outBuffer, i + NUM_BANDS * j, out);
    }

    method AnalysisPassAccumulates(i: nat, j: nat, out: array2<real>, ghost block: seq<real>)
      requires i < NUM_BANDS && j < SPARSITY && out !in Own()
      requires AnalysisUnderWay(block, i, j) && Accumulated(out, block, i, j) && inBuffer[..] == Branch(block, i)
      modifies this`analysisInputs, analysisParts, outBuffer, out
      ensures AnalysisUnderWay(block, i, j + 1) && Accumulated(out, block, i, j + 1)
    {
      AnalysisPass(i, j, out, block);
      MorePasses(tables, analyzed + block, |analyzed| / NUM_BANDS, out.Length1, i, j);
    }

    static lemma AllBranchesFed(inputs: seq<seq<real>>, x: seq<real>, block: seq<real>, i: nat)
      requires BranchesFed(inputs, x, block, i, SPARSITY)
      ensures BranchesFed(inputs, x, block, i + 1, 0)
    {
      assert forall r | 0 <= r < PERIOD :: Done(r, i, SPARSITY) == Done(r, i + 1, 0);
    }

    /** The branch has been through its four filters; the next one is due. */
    lemma NextBranch(out: array2<real>, block: seq<real>, i: nat)
      requires AnalysisUnderWay(block, i, SPARSITY) && Accumulated(out, block, i, SPARSITY)
      ensures AnalysisUnderWay(block, i + 1, 0) && Accumulated(out, block, i + 1, 0)
    {
      AllBranchesFed(analysisInputs, analyzed, block, i);
      assert SPARSITY * i + SPARSITY == SPARSITY * (i + 1) + 0;
    }

    /** Before the passes of branch i. */
    ghost predicate AnalysisAt(input: array<real>, out: array2<real>, i: nat)
      reads this`analyzed, this`analysisInputs, analysisParts, input, out
    {
      && input !in Own() && out !in Own()
      && AnalysisUnderWay(input[..], i, 0) && Accumulated(out, input[..], i, 0)
    }

    /** The body of the outer loop: one branch through its four filters. */
    method AnalysisBranch(input: array<real>, i: nat, out: array2<real>)
      requires i < NUM_BANDS && AnalysisAt(input, out, i)
      modifies this`analysisInputs, analysisParts, inBuffer, outBuffer, out
      ensures AnalysisAt(input, out, i + 1)
    {
      ghost var block := input[..];
      Downsample(input, NUM_BANDS - i - 1, inBuffer);
      assert inBuffer[..] == Branch(block, i);
      for j := 0 to SPARSITY
        invariant inBuffer[..] == Branch(block, i)
        invariant AnalysisUnderWay(block, i, j)
        invariant Accumulated(out, block, i, j)
      {
        AnalysisPassAccumulates(i, j, out, block);
      }
      NextBranch(out, block, i);
    }

    /** Splits a block into three bands.  Over any number of blocks the bands put out are the plain form
        of everything put in, whatever Synthesis did in between. */
    method Analysis(input: array<real>, out: array2<real>)
      requires Valid() && input.Length == NUM_BANDS * inBuffer.Length
      requires out.Length0 == NUM_BANDS && out.Length1 == inBuffer.Length
      requires input !in Own() && out !in Own()
      modifies this`analysisInputs, analysisParts, this`analyzed, inBuffer, outBuffer, out
      ensures Valid() && analyzed == old(analyzed) + input[..]
      ensures Rows(out) == DirectBands(tables, analyzed, |old(analyzed)| / NUM_BANDS, out.Length1)
    {
      AnalysisLoops(input, out);
      AllPassesAreDirect(tables, analyzed + input[..], |analyzed| / NUM_BANDS, out.Length1);
      AllDone(input[..]);
      analyzed := analyzed + input[..];
    }

    /** Clears the bands, then puts the three branches through their filters. */
    method AnalysisLoops(input: array<real>, out: array2<real>)
      requires Scratch() && Analyzed(analyzed) && input.Length == NUM_BANDS * inBuffer.Length
      requires out.Length0 == NUM_BANDS && out.Length1 == inBuffer.Length
      requires input !in Own() && out !in Own()
      modifies this`analysisInputs, analysisParts, inBuffer, outBuffer, out
      ensures AnalysisUnderWay(input[..], NUM_BANDS, 0) && Accumulated(out, input[..], NUM_BANDS, 0)
    {
      ClearBands(out);
      NothingAccumulated(out, input[..]);
      NothingFed(input[..]);
      for i := 0 to NUM_BANDS
        invariant AnalysisAt(input, out, i)
      {
        AnalysisBranch(input, i, out);
      }
    }

    method ClearBands(out: array2<real>)
      modifies out
      ensures forall b, n | 0 <= b < out.Length0 && 0 <= n < out.Length1 :: out[b, n] == 0.0
    {
      forall b, n | 0 <= b < out.Length0 && 0 <= n < out.Length1 {
        out[b, n] := 0.0;
      }
    }

    lemma NothingFed(block: seq<real>)
      requires Scratch() && Analyzed(analyzed) && |block| == NUM_BANDS * inBuffer.Length
      ensures AnalysisUnderWay(block, 0, 0)
    {
    }

    lemma NothingAccumulated(out: array2<real>, block: seq<real>)
      requires Analyzed(analyzed) && |block| % NUM_BANDS == 0
      requires out.Length0 == NUM_BANDS && out.Length1 == inBuffer.Length
      requires forall b, n | 0 <= b < NUM_BANDS && 0 <= n < out.Length1 :: out[b, n] == 0.0
      ensures Accumulated(out, block, 0, 0)
    {
      SameGrid(Rows(out), Passes(tables, analyzed + block, |analyzed| / NUM_BANDS, out.Length1, 0), out.Length1);
    }

    lemma AllDone(block: seq<real>)
      requires AnalysisUnderWay(block, NUM_BANDS, 0)
      ensures Analyzed(analyzed + block)
    {
      assert forall r | 0 <= r < PERIOD :: Done(r, NUM_BANDS, 0);
    }

    // -------------------------------------------------------------- synthesis

    /** The three rows of a block. */
    static ghost function Rows(input: array2<real>): (bands: seq<seq<real>>)
      requires input.Length0 == NUM_BANDS
      reads input
      ensures IsBands(bands) && |bands[0]| == input.Length1
      ensures forall b, n | 0 <= b < NUM_BANDS && 0 <= n < input.Length1 :: bands[b][n] == input[b, n]
    {
      [seq(input.Length1, n requires 0 <= n < input.Length1 reads input => input[0, n]),
       seq(input.Length1, n requires 0 <= n < input.Length1 reads input => input[1, n]),
       seq(input.Length1, n requires 0 <= n < input.Length1 reads input => input[2, n])]
    }

    /** The first `k` terms of a modulated sample. */
    static function PartialMix(tb: Tables, r: nat, bands: seq<seq<real>>, n: nat, k: nat): real
      requires IsBands(bands) && n < |bands[0]| && k <= NUM_BANDS
    {
      if k == 0 then 0.0 else PartialMix(tb, r, bands, n, k - 1) + Dct(tb, r, k - 1) * bands[k - 1][n]
    }

    static lemma PartialMixAll(tb: Tables, r: nat, bands: seq<seq<real>>, n: nat)
      requires IsBands(bands) && n < |bands[0]|
      ensures PartialMix(tb, r, bands, n, NUM_BANDS) == Modulated(tb, bands, r)[n]
    {
      assert PartialMix(tb, r, bands, n, 1) == Dct(tb, r, 0) * bands[0][n];
      assert PartialMix(tb, r, bands, n, 2) == PartialMix(tb, r, bands, n, 1) + Dct(tb, r, 1) * bands[1][n];
    }

    /** Adds one band, modulated with row r of the cosine table. */
    method UpModulateBand(input: array2<real>, r: nat, i: nat, output: array<real>)
      requires r < PERIOD && i < NUM_BANDS && input.Length0 == NUM_BANDS && input.Length1 == output.Length
      requires forall n | 0 <= n < output.Length :: output[n] == PartialMix(tables, r, Rows(input), n, i)
      modifies output
      ensures forall n | 0 <= n < output.Length :: output[n] == PartialMix(tables, r, Rows(input), n, i + 1)
    {
      ghost var bands := Rows(input);
      for j := 0 to output.Length
        invariant forall n | 0 <= n < j :: output[n] == PartialMix(tables, r, bands, n, i + 1)
        invariant forall n | j <= n < output.Length :: output[n] == PartialMix(tables, r, bands, n, i)
      {
        assert input[i, j] == bands[i][j];
        output[j] := output[j] + tables.dct[r][i] * input[i, j];
      }
      assert bands == Rows(input);
    }

    /** Clears `output` and adds up in it the bands modulated with row r of the cosine table. */
    method UpModulate(input: array2<real>, r: nat, output: array<real>)
      requires r < PERIOD && input.Length0 == NUM_BANDS && input.Length1 == output.Length
      modifies output
      ensures output[..] == Modulated(tables, Rows(input), r)
    {
      forall n | 0 <= n < output.Length {
        output[n] := 0.0;
      }
      for i := 0 to NUM_BANDS
        invariant forall n | 0 <= n < output.Length :: output[n] == PartialMix(tables, r, Rows(input), n, i)
      {
        UpModulateBand(input, r, i, output);
      }
      ghost var mixed := Modulated(tables, Rows(input), r);
      forall n | 0 <= n < output.Length
        ensures output[n] == mixed[n]
      {
        PartialMixAll(tables, r, Rows(input), n);
      }
      assert output[..] == mixed;
    }

    /** The same for the modulated bands in the middle of Synthesis. */
    static ghost predicate MixesFed(tb: Tables, inputs: seq<seq<real>>, bands: seq<seq<real>>,
                                    block: seq<seq<real>>, i: nat, j: nat) {
      && |inputs| == PERIOD && IsBands(bands) && IsBands(block)
      && forall r | 0 <= r < PERIOD ::
           inputs[r] == Modulated(tb, if Done(r, i, j) then Joined(bands, block) else bands, r)
    }

    static lemma NextMixFed(tb: Tables, inputs: seq<seq<real>>, bands: seq<seq<real>>,
                            block: seq<seq<real>>, i: nat, j: nat)
      requires i < NUM_BANDS && j < SPARSITY && MixesFed(tb, inputs, bands, block, i, j)
      ensures var r := i + NUM_BANDS * j;
              && inputs[r] + Modulated(tb, block, r) == Modulated(tb, Joined(bands, block), r)
              && |inputs[r]| == |bands[0]|
              && MixesFed(tb, inputs[r := Modulated(tb, Joined(bands, block), r)], bands, block, i, j + 1)
    {
      var r := i + NUM_BANDS * j;
      FilterIndex(i, j);
      ModulatedAppend(tb, bands, block, r);
      forall q | 0 <= q < PERIOD && q != r
        ensures Done(q, i, j + 1) == Done(q, i, j)
      {
      }
    }

    static lemma AllMixesFed(tb: Tables, inputs: seq<seq<real>>, bands: seq<seq<real>>, block: seq<seq<real>>, i: nat)
      requires MixesFed(tb, inputs, bands, block, i, SPARSITY)
      ensures MixesFed(tb, inputs, bands, block, i + 1, 0)
    {
      assert forall r | 0 <= r < PERIOD :: Done(r, i, SPARSITY) == Done(r, i + 1, 0);
    }

    ghost predicate SynthesisUnderWay(block: seq<seq<real>>, i: nat, j: nat)
      reads this`synthesized, this`synthesisInputs, synthesisParts
    {
      && Scratch()
      && IsBands(block) && |block[0]| == inBuffer.Length
      && Fed(tables, synthesisFilters, synthesisParts, synthesisInputs)
      && MixesFed(tables, synthesisInputs, synthesized, block, i, j)
    }

    ghost predicate Interpolated(out: array<real>, block: seq<seq<real>>, i: nat, j: nat)
      reads this`synthesized, out
    {
      && out.Length == NUM_BANDS * inBuffer.Length && j <= SPARSITY
      && IsBands(synthesized) && IsBands(block)
      && out[..] == PartialOutput(tables, Joined(synthesized, block), |synthesized[0]|, inBuffer.Length, i, j)
    }

    /** Runs filter i + 3 j on the modulated bands in the scratch buffer. */
    method RunSynthesisFilter(i: nat, j: nat, ghost block: seq<seq<real>>)
      requires i < NUM_BANDS && j < SPARSITY && SynthesisUnderWay(block, i, j)
      requires inBuffer[..] == Modulated(tables, block, i + NUM_BANDS * j)
      modifies this`synthesisInputs, synthesisParts, outBuffer
      ensures SynthesisUnderWay(block, i, j + 1)
      ensures outBuffer[..] == FilteredMix(tables, Joined(synthesized, block), |synthesized[0]|, outBuffer.Length, i, j)
    {
      var r := i + NUM_BANDS * j;
      FilterIndex(i, j);
      NextMixFed(tables, synthesisInputs, synthesized, block, i, j);
      Feed(tables, synthesisFilters, synthesisParts, synthesisInputs, r, inBuffer, outBuffer);
      synthesisInputs := synthesisInputs[r := synthesisInputs[r] + inBuffer[..]];
    }

    /** Before pass i, j of the loops of Synthesis. */
    ghost predicate SynthesisAt(input: array2<real>, out: array<real>, block: seq<seq<real>>, i: nat, j: nat)
      reads this`synthesized, this`synthesisInputs, synthesisParts, input, out
    {
      && input.Length0 == NUM_BANDS && block == Rows(input) && input !in Own() && out !in Own()
      && SynthesisUnderWay(block, i, j) && Interpolated(out, block, i, j)
    }

    /** One pass of the inner loop adds its term to every third output sample. */
    method SynthesisPassAccumulates(input: array2<real>, i: nat, j: nat, out: array<real>, ghost block: seq<seq<real>>)
      requires i < NUM_BANDS && j < SPARSITY && SynthesisAt(input, out, block, i, j)
      modifies this`synthesisInputs, synthesisParts, inBuffer, outBuffer, out
      ensures SynthesisAt(input, out, block, i, j + 1)
    {
      UpModulate(input, i + NUM_BANDS * j, inBuffer);
      RunSynthesisFilter(i, j, block);
      MoreOutput(tables, Joined(synthesized, block), |synthesized[0]|, inBuffer.Length, i, j);
      Upsample(outBuffer, i, out);
    }

    lemma NextPhase(input: array2<real>, out: array<real>, block: seq<seq<real>>, i: nat)
      requires SynthesisAt(input, out, block, i, SPARSITY)
      ensures SynthesisAt(input, out, block, i + 1, 0)
    {
      AllMixesFed(tables, synthesisInputs, synthesized, block, i);
      assert PartialOutput(tables, Joined(synthesized, block), |synthesized[0]|, inBuffer.Length, i, SPARSITY)
          == PartialOutput(tables, Joined(synthesized, block), |synthesized[0]|, inBuffer.Length, i + 1, 0);
    }

    /** The body of the outer loop: the four passes that reach output samples of phase i. */
    method SynthesisPhase(input: array2<real>, i: nat, out: array<real>, ghost block: seq<seq<real>>)
      requires i < NUM_BANDS && SynthesisAt(input, out, block, i, 0)
      modifies this`synthesisInputs, synthesisParts, inBuffer, outBuffer, out
      ensures SynthesisAt(input, out, block, i + 1, 0)
    {
      SynthesisPasses(input, i, out, block);
      NextPhase(input, out, block, i);
    }

    method SynthesisPasses(input: array2<real>, i: nat, out: array<real>, ghost block: seq<seq<real>>)
      requires i < NUM_BANDS && SynthesisAt(input, out, block, i, 0)
      modifies this`synthesisInputs, synthesisParts, inBuffer, outBuffer, out
      ensures SynthesisAt(input, out, block, i, SPARSITY)
    {
      for j := 0 to SPARSITY
        invariant SynthesisAt(input, out, block, i, j)
      {
        SynthesisPassAccumulates(input, i, j, out, block);
      }
    }

    /** Merges three bands.  Over any number of blocks the output is the plain interpolating form of
        everything put in, whatever Analysis did in between. */
    method Synthesis(input: array2<real>, out: array<real>)
      requires Valid() && input.Length0 == NUM_BANDS && input.Length1 == inBuffer.Length
      requires out.Length == NUM_BANDS * inBuffer.Length && input !in Own() && out !in Own()
      modifies this`synthesisInputs, synthesisParts, this`synthesized, inBuffer, outBuffer, out
      ensures Valid() && synthesized == Joined(old(synthesized), Rows(input))
      ensures out[..] == DirectOutput(tables, synthesized, NUM_BANDS * |old(synthesized[0])|, out.Length)
    {
      ghost var block := Rows(input);
      SynthesisLoops(input, out, block);
      AllOutputIsDirect(tables, Joined(synthesized, block), |synthesized[0]|, inBuffer.Length);
      AllSynthesized(block);
      synthesized := Joined(synthesized, block);
    }

    /** Clears the output, then runs the passes of the three phases. */
    method SynthesisLoops(input: array2<real>, out: array<real>, ghost block: seq<seq<real>>)
      requires Valid() && input.Length0 == NUM_BANDS && input.Length1 == inBuffer.Length && block == Rows(input)
      requires out.Length == NUM_BANDS * inBuffer.Length && input !in Own() && out !in Own()
      modifies this`synthesisInputs, synthesisParts, inBuffer, outBuffer, out
      ensures SynthesisUnderWay(block, NUM_BANDS, 0) && Interpolated(out, block, NUM_BANDS, 0)
      ensures Analyzed(analyzed)
    {
      forall n | 0 <= n < out.Length {
        out[n] := 0.0;
      }
      for i := 0 to NUM_BANDS
        invariant SynthesisAt(input, out, block, i, 0)
      {
        SynthesisPhase(input, i, out, block);
      }
    }

    lemma AllSynthesized(block: seq<seq<real>>)
      requires SynthesisUnderWay(block, NUM_BANDS, 0)
      ensures Synthesized(Joined(synthesized, block))
    {
      assert forall r | 0 <= r < PERIOD :: Done(r, NUM_BANDS, 0);
    }
  }
}
