/**
 * The prune golden-track strategy (sel_using_prune == 1): eleven cuts, each
 * applied only when at least one still-kept track passes it, then the kept
 * track with the smallest chi2/ndof. Every track carries a reject code, the
 * sum of the weights of the applied cuts it failed.
 */
module PruneSelection {
  import opened Wrappers
  import opened Tracks

  /** The "no candidate yet" value of the chi2/ndof minimum. */
  const NoChi: real := 10000000000.0

  /** prune_xp, prune_yp, prune_ytar, prune_delta, prune_beta, prune_df, prune_chibeta, prune_npmt, prune_fptime. */
  datatype PruneCuts = PruneCuts(xp: real, yp: real, ytar: real, delta: real, beta: real,
                                 df: real, chiBeta: real, npmt: real, fpTime: real)

  /** The smallest value each threshold is raised to before pruning. */
  const Floors := PruneCuts(0.08, 0.04, 4.0, 13.0, 0.1, 1.0, 2.0, 6.0, 5.0)

  function Max(a: real, b: real): (m: real)
    ensures m >= a && m >= b && (m == a || m == b)
  {
    if a < b then b else a
  }

  /** Every threshold raised to at least its floor (TMath::Max(floor, cut)). */
  function ClampCuts(c: PruneCuts): (r: PruneCuts)
    ensures r.xp >= Floors.xp && r.yp >= Floors.yp && r.ytar >= Floors.ytar && r.delta >= Floors.delta
    ensures r.beta >= Floors.beta && r.df >= Floors.df && r.chiBeta >= Floors.chiBeta
    ensures r.npmt >= Floors.npmt && r.fpTime >= Floors.fpTime
    ensures AtLeastFloors(r)
    ensures AtLeastFloors(c) ==> r == c
  {
    PruneCuts(Max(Floors.xp, c.xp), Max(Floors.yp, c.yp), Max(Floors.ytar, c.ytar),
              Max(Floors.delta, c.delta), Max(Floors.beta, c.beta), Max(Floors.df, c.df),
              Max(Floors.chiBeta, c.chiBeta), Max(Floors.npmt, c.npmt), Max(Floors.fpTime, c.fpTime))
  }

  predicate AtLeastFloors(c: PruneCuts) {
    && c.xp >= Floors.xp && c.yp >= Floors.yp && c.ytar >= Floors.ytar && c.delta >= Floors.delta
    && c.beta >= Floors.beta && c.df >= Floors.df && c.chiBeta >= Floors.chiBeta
    && c.npmt >= Floors.npmt && c.fpTime >= Floors.fpTime
  }

  /**
   * What the cuts read besides a track: the clamped thresholds, the predicted
   * velocity p / sqrt(p^2 + m^2) for the particle mass, and the hodoscope's
   * start-time center.
   */
  datatype PruneEnv = PruneEnv(cuts: PruneCuts, betaOf: real -> real, startTime: real)

  function Abs(x: real): real {
    if x < 0.0 then -x else x
  }

  const NumPasses: nat := 11

  /** The reject-code weight of each cut, in the order the cuts are applied. */
  const Weights: seq<int> := [1, 2, 10, 20, 100, 200, 100000, 1000, 2000, 10000, 20000]

  /**
   * Cut k in application order: target x', target y', target y, delta, beta,
   * degrees of freedom, PMT hits, beta chi2 window, focal-plane time, 2Y plane
   * hit, 2X plane hit.
   */
  predicate Passes(k: nat, t: Track, env: PruneEnv)
    requires k < NumPasses
  {
    var c := env.cuts;
    match k
    case 0 => Abs(t.tTheta) < c.xp
    case 1 => Abs(t.tPhi) < c.yp
    case 2 => Abs(t.tY) < c.ytar
    case 3 => Abs(t.dp) < c.delta
    case 4 => Abs(t.beta - env.betaOf(t.p)) < c.beta
    case 5 => (t.ndof as real) >= c.df
    case 6 => t.npmt >= c.npmt
    case 7 => t.betaChi2 < c.chiBeta && t.betaChi2 > 0.01
    case 8 => Abs(t.fpTime - env.startTime) < c.fpTime
    case 9 => t.goodPlane4 == 1
    case _ => t.goodPlane3 == 1
  }

  /** The kept flags and reject codes of all tracks. */
  datatype PruneState = PruneState(keep: seq<bool>, reject: seq<int>)

  /** fNGood: the kept tracks among the first n that pass cut k. */
  function GoodCount(k: nat, ts: seq<Track>, keep: seq<bool>, env: PruneEnv, n: nat): nat
    requires k < NumPasses && n <= |ts| && |keep| == |ts|
  {
    if n == 0 then 0
    else GoodCount(k, ts, keep, env, n - 1) + (if Passes(k, ts[n - 1], env) && keep[n - 1] then 1 else 0)
  }

  /** Cut k, applied only if some kept track passes it: failing tracks are dropped and charged its weight. */
  function ApplyPass(k: nat, ts: seq<Track>, st: PruneState, env: PruneEnv): (r: PruneState)
    requires k < NumPasses && |st.keep| == |ts| && |st.reject| == |ts|
    ensures |r.keep| == |ts| && |r.reject| == |ts|
  {
    if GoodCount(k, ts, st.keep, env, |ts|) > 0 then
      PruneState(
        seq(|ts|, i requires 0 <= i < |ts| => st.keep[i] && Passes(k, ts[i], env)),
        seq(|ts|, i requires 0 <= i < |ts| => if Passes(k, ts[i], env) then st.reject[i] else st.reject[i] + Weights[k]))
    else st
  }

  /** The state after the first k cuts, from all tracks kept with code 0. */
  function Pruned(ts: seq<Track>, env: PruneEnv, k: nat): (r: PruneState)
    requires k <= NumPasses
    ensures |r.keep| == |ts| && |r.reject| == |ts|
  {
    if k == 0 then PruneState(seq(|ts|, _ => true), seq(|ts|, _ => 0))
    else ApplyPass(k - 1, ts, Pruned(ts, env, k - 1), env)
  }

  /** Whether cut k took effect: some track still kept before it passes it. */
  predicate Applied(ts: seq<Track>, env: PruneEnv, k: nat)
    requires k < NumPasses
  {
    GoodCount(k, ts, Pruned(ts, env, k).keep, env, |ts|) > 0
  }

  /** The chosen index and chi2/ndof minimum of the final loop. */
  datatype Pick = Pick(good: nat, chiMin: real)

  /** The final loop over the first n tracks: the earliest kept track with the smallest chi2/ndof below 1e10, else 0. */
  function BestKept(ts: seq<Track>, keep: seq<bool>, n: nat): Pick
    requires NonZeroDof(ts) && |keep| == |ts| && n <= |ts|
  {
    if n == 0 then Pick(0, NoChi)
    else
      var p := BestKept(ts, keep, n - 1);
      if Chi2PerDof(ts[n - 1]) < p.chiMin && keep[n - 1] then Pick(n - 1, Chi2PerDof(ts[n - 1])) else p
  }

  /** What the strategy leaves behind: an abort on a NULL entry, or fGoodTrack and fChi2Min. */
  datatype PruneOutcome = PruneAborted | PrunePicked(good: nat, chiMin: real)

  /** chi2/ndof is formed for every track, so every present track must have ndof != 0. */
  predicate PresentDofNonZero(s: seq<Option<Track>>) {
    forall i :: 0 <= i < |s| && s[i].Some? ==> s[i].value.ndof != 0
  }

  /** The whole strategy on a track list. */
  function PruneSelection(s: seq<Option<Track>>, env: PruneEnv): PruneOutcome
    requires PresentDofNonZero(s)
  {
    if !AllPresent(s) then PruneAborted
    else
      var ts := Values(s);
      var p := BestKept(ts, Pruned(ts, env, NumPasses).keep, |ts|);
      PrunePicked(p.good, p.chiMin)
  }

  // ---------------------------------------------------------------------------
  // The loops

  /** One cut: count the kept tracks that pass it, then, if any, drop and charge the failing ones. */
  method ApplyPassInPlace(k: nat, ts: seq<Track>, keep: array<bool>, reject: array<int>, env: PruneEnv)
    requires k < NumPasses && keep.Length == |ts| && reject.Length == |ts|
    modifies keep, reject
    ensures PruneState(keep[..], reject[..]) == ApplyPass(k, ts, PruneState(old(keep[..]), old(reject[..])), env)
  {
    var nGood := 0;
    for i := 0 to |ts|
      invariant nGood == GoodCount(k, ts, keep[..], env, i)
    {
      if Passes(k, ts[i], env) && keep[i] {
        nGood := nGood + 1;
      }
    }
    if nGood > 0 {
      for i := 0 to |ts|
        invariant forall j :: 0 <= j < i ==>
                    keep[j] == (old(keep[j]) && Passes(k, ts[j], env)) &&
                    reject[j] == if Passes(k, ts[j], env) then old(reject[j]) else old(reject[j]) + Weights[k]
        invariant forall j :: i <= j < |ts| ==> keep[j] == old(keep[j]) && reject[j] == old(reject[j])
      {
        if !Passes(k, ts[i], env) {
          keep[i] := false;
          reject[i] := reject[i] + Weights[k];
        }
      }
    }
  }

  /**
   * The prune strategy: mark every track kept (aborting on a NULL entry), run
   * the eleven cuts, then pick among the kept tracks.
   */
  method PruneSelect(a: array<Option<Track>>, env: PruneEnv) returns (outcome: PruneOutcome)
    requires PresentDofNonZero(a[..])
    ensures outcome == PruneSelection(a[..], env)
  {
    var n := a.Length;
    var keep := new bool[n];
    var reject := new int[n];
    var ts: seq<Track> := [];
    for i := 0 to n
      invariant AllPresent(a[..i]) && ts == Values(a[..i])
      invariant forall j :: 0 <= j < i ==> keep[j] && reject[j] == 0
    {
      keep[i] := true;
      reject[i] := 0;
      if a[i].None? {
        assert !AllPresent(a[..]);
        return PruneAborted;
      }
      ts := ts + [a[i].value];
      assert a[..i + 1] == a[..i] + [a[i]];
    }
    assert a[..n] == a[..];
    assert PruneState(keep[..], reject[..]) == Pruned(ts, env, 0);
    for k := 0 to NumPasses
      invariant keep.Length == |ts| && reject.Length == |ts|
      invariant PruneState(keep[..], reject[..]) == Pruned(ts, env, k)
    {
      ApplyPassInPlace(k, ts, keep, reject, env);
    }
    var p := PickBestKept(ts, keep);
    outcome := PrunePicked(p.good, p.chiMin);
  }

  /** The final loop: scan the kept tracks for the smallest chi2/ndof, keeping the earliest on ties. */
  method PickBestKept(ts: seq<Track>, keep: array<bool>) returns (p: Pick)
    requires NonZeroDof(ts) && keep.Length == |ts|
    ensures p == BestKept(ts, keep[..], |ts|)
  {
    var good := 0;
    var chiMin := NoChi;
    for i := 0 to |ts|
      invariant Pick(good, chiMin) == BestKept(ts, keep[..], i)
    {
      var chi := Chi2PerDof(ts[i]);
      if chi < chiMin && keep[i] {
        good := i;
        chiMin := chi;
      }
    }
    p := Pick(good, chiMin);
  }

  // ---------------------------------------------------------------------------
  // Properties

  /** The count is positive exactly when some kept track among the first n passes the cut. */
  lemma {:induction false} GoodCountPositive(k: nat, ts: seq<Track>, keep: seq<bool>, env: PruneEnv, n: nat)
    requires k < NumPasses && n <= |ts| && |keep| == |ts|
    ensures GoodCount(k, ts, keep, env, n) > 0 <==> exists i :: 0 <= i < n && keep[i] && Passes(k, ts[i], env)
  {
    if n > 0 {
      GoodCountPositive(k, ts, keep, env, n - 1);
    }
  }

  /** A track is still kept after k cuts exactly when it passed every one of them that took effect. */
  lemma {:induction false} KeptIffPassedApplied(ts: seq<Track>, env: PruneEnv, k: nat, i: nat)
    requires k <= NumPasses && i < |ts|
    ensures Pruned(ts, env, k).keep[i] <==> forall q :: 0 <= q < k && Applied(ts, env, q) ==> Passes(q, ts[i], env)
  {
    if k > 0 {
      KeptIffPassedApplied(ts, env, k - 1, i);
    }
  }

  /** The kept set only shrinks from one cut to a later one. */
  lemma {:induction false} KeepShrinks(ts: seq<Track>, env: PruneEnv, k: nat, k': nat, i: nat)
    requires k <= k' <= NumPasses && i < |ts|
    requires Pruned(ts, env, k').keep[i]
    ensures Pruned(ts, env, k).keep[i]
    decreases k' - k
  {
    if k < k' {
      KeepShrinks(ts, env, k + 1, k', i);
    }
  }

  /** A cut never drops the last kept tracks: some track survives every stage of a non-empty list. */
  lemma {:induction false} SomeTrackSurvives(ts: seq<Track>, env: PruneEnv, k: nat)
    requires k <= NumPasses && |ts| > 0
    ensures exists i :: 0 <= i < |ts| && Pruned(ts, env, k).keep[i]
  {
    if k == 0 {
      assert Pruned(ts, env, 0).keep[0];
    } else {
      SomeTrackSurvives(ts, env, k - 1);
      var prev := Pruned(ts, env, k - 1);
      GoodCountPositive(k - 1, ts, prev.keep, env, |ts|);
      if Applied(ts, env, k - 1) {
        var i :| 0 <= i < |ts| && prev.keep[i] && Passes(k - 1, ts[i], env);
        assert Pruned(ts, env, k).keep[i];
      } else {
        var i :| 0 <= i < |ts| && prev.keep[i];
        assert Pruned(ts, env, k).keep[i];
      }
    }
  }

  /** Once a single track is left, it is the one the cuts end with. */
  lemma LoneSurvivorStays(ts: seq<Track>, env: PruneEnv, k: nat, i: nat)
    requires k <= NumPasses && i < |ts|
    requires forall j :: 0 <= j < |ts| ==> (Pruned(ts, env, k).keep[j] <==> j == i)
    ensures forall j :: 0 <= j < |ts| ==> (Pruned(ts, env, NumPasses).keep[j] <==> j == i)
  {
    SomeTrackSurvives(ts, env, NumPasses);
    var w :| 0 <= w < |ts| && Pruned(ts, env, NumPasses).keep[w];
    KeepShrinks(ts, env, k, NumPasses, w);
    forall j | 0 <= j < |ts| && Pruned(ts, env, NumPasses).keep[j]
      ensures j == i
    {
      KeepShrinks(ts, env, k, NumPasses, j);
    }
  }

  /** For track i, which cuts took effect and were failed by it. */
  function FailedPasses(ts: seq<Track>, env: PruneEnv, i: nat): (f: seq<bool>)
    requires i < |ts|
    ensures |f| == NumPasses
  {
    seq(NumPasses, q requires 0 <= q < NumPasses => Applied(ts, env, q) && !Passes(q, ts[i], env))
  }

  /** The sum of the weights of the flagged cuts among the first k. */
  function Code(f: seq<bool>, k: nat): int
    requires k <= |f| <= NumPasses
  {
    if k == 0 then 0 else Code(f, k - 1) + (if f[k - 1] then Weights[k - 1] else 0)
  }

  /** The reject code of a track is the sum of the weights of the applied cuts it failed, dropped or not. */
  lemma {:induction false} RejectRecordsFailures(ts: seq<Track>, env: PruneEnv, k: nat, i: nat)
    requires k <= NumPasses && i < |ts|
    ensures Pruned(ts, env, k).reject[i] == Code(FailedPasses(ts, env, i), k)
  {
    if k > 0 {
      RejectRecordsFailures(ts, env, k - 1, i);
      var st := Pruned(ts, env, k - 1);
      ApplyPassRejectAt(k - 1, ts, st, env, i);
      assert FailedPasses(ts, env, i)[k - 1] == (Applied(ts, env, k - 1) && !Passes(k - 1, ts[i], env));
    }
  }

  /** Cut k adds its weight to the code of a track that fails it, when the cut takes effect. */
  lemma ApplyPassRejectAt(k: nat, ts: seq<Track>, st: PruneState, env: PruneEnv, i: nat)
    requires k < NumPasses && |st.keep| == |ts| && |st.reject| == |ts| && i < |ts|
    ensures ApplyPass(k, ts, st, env).reject[i] ==
            st.reject[i] + (if GoodCount(k, ts, st.keep, env, |ts|) > 0 && !Passes(k, ts[i], env) then Weights[k] else 0)
  {
  }

  /** Decimal digit p of a non-negative code. */
  function Digit(code: int, p: nat): int
    decreases p
  {
    if p == 0 then code % 10 else Digit(code / 10, p - 1)
  }

  function B(b: bool): int {
    if b then 1 else 0
  }

  /**
   * Reading flag q of a reject code: the 1/2 weights share the units digit,
   * 10/20 the tens, 100/200 the hundreds, 1000/2000 the thousands, 10000/20000
   * the ten thousands, and 100000 has the hundred thousands alone; within a
   * digit the first weight is its low bit and the second its high bit.
   */
  function Decode(code: int, q: nat): bool
    requires q < NumPasses
  {
    FlagOfDigits(q, Digit(code, 0), Digit(code, 1), Digit(code, 2), Digit(code, 3), Digit(code, 4), Digit(code, 5))
  }

  function FlagOfDigits(q: nat, d0: int, d1: int, d2: int, d3: int, d4: int, d5: int): bool
    requires q < NumPasses
  {
    match q
    case 0 => d0 % 2 == 1
    case 1 => d0 / 2 == 1
    case 2 => d1 % 2 == 1
    case 3 => d1 / 2 == 1
    case 4 => d2 % 2 == 1
    case 5 => d2 / 2 == 1
    case 6 => d5 % 2 == 1
    case 7 => d3 % 2 == 1
    case 8 => d3 / 2 == 1
    case 9 => d4 % 2 == 1
    case _ => d4 / 2 == 1
  }

  lemma DigitSplit(c: int, r: int)
    requires 0 <= c < 10
    ensures (c + 10 * r) % 10 == c && (c + 10 * r) / 10 == r
  {
  }

  /** A digit made of a low bit `lo` and a high bit `hi` gives both back. */
  lemma BitsRead(lo: bool, hi: bool)
    ensures var c := B(lo) + 2 * B(hi);
            0 <= c < 10 && (c % 2 == 1 <==> lo) && (c / 2 == 1 <==> hi)
  {
  }

  /** The code as six decimal digits, each the low bit plus twice the high bit of its cuts. */
  lemma {:induction false} CodeDigits(f: seq<bool>)
    requires |f| == NumPasses
    ensures Code(f, NumPasses) ==
            (B(f[0]) + 2 * B(f[1])) + 10 * ((B(f[2]) + 2 * B(f[3])) + 10 * ((B(f[4]) + 2 * B(f[5])) +
            10 * ((B(f[7]) + 2 * B(f[8])) + 10 * ((B(f[9]) + 2 * B(f[10])) + 10 * (B(f[6]) + 2 * B(false))))))
  {
    assert Code(f, 1) == B(f[0]);
    assert Code(f, 2) == B(f[0]) + 2 * B(f[1]);
    assert Code(f, 3) == Code(f, 2) + 10 * B(f[2]);
    assert Code(f, 4) == Code(f, 2) + 10 * B(f[2]) + 20 * B(f[3]);
    assert Code(f, 5) == Code(f, 4) + 100 * B(f[4]);
    assert Code(f, 6) == Code(f, 4) + 100 * B(f[4]) + 200 * B(f[5]);
    assert Code(f, 7) == Code(f, 6) + 100000 * B(f[6]);
    assert Code(f, 8) == Code(f, 7) + 1000 * B(f[7]);
    assert Code(f, 9) == Code(f, 7) + 1000 * B(f[7]) + 2000 * B(f[8]);
    assert Code(f, 10) == Code(f, 9) + 10000 * B(f[9]);
  }

  /** Reading digit p of a number written with digits below 10. */
  lemma DigitsRead(c0: int, c1: int, c2: int, c3: int, c4: int, c5: int)
    requires 0 <= c0 < 10 && 0 <= c1 < 10 && 0 <= c2 < 10 && 0 <= c3 < 10 && 0 <= c4 < 10 && 0 <= c5 < 10
    ensures var code := c0 + 10 * (c1 + 10 * (c2 + 10 * (c3 + 10 * (c4 + 10 * c5))));
            Digit(code, 0) == c0 && Digit(code, 1) == c1 && Digit(code, 2) == c2 &&
            Digit(code, 3) == c3 && Digit(code, 4) == c4 && Digit(code, 5) == c5
  {
    var r4 := c4 + 10 * c5;
    var r3 := c3 + 10 * r4;
    var r2 := c2 + 10 * r3;
    var r1 := c1 + 10 * r2;
    var code := c0 + 10 * r1;
    DigitSplit(c0, r1);
    DigitSplit(c1, r2);
    DigitSplit(c2, r3);
    DigitSplit(c3, r4);
    DigitSplit(c4, c5);
    DigitSplit(c5, 0);
    assert Digit(code, 1) == Digit(r1, 0);
    assert Digit(code, 2) == Digit(r2, 0) by { assert Digit(code, 2) == Digit(r1, 1); }
    assert Digit(code, 3) == Digit(r3, 0) by { assert Digit(code, 3) == Digit(r1, 2) == Digit(r2, 1); }
    assert Digit(code, 4) == Digit(r4, 0) by { assert Digit(code, 4) == Digit(r1, 3) == Digit(r2, 2) == Digit(r3, 1); }
    assert Digit(code, 5) == Digit(c5, 0) by { assert Digit(code, 5) == Digit(r1, 4) == Digit(r2, 3) == Digit(r3, 2) == Digit(r4, 1); }
  }

  /** Digits whose bits are the flags give the flags back. */
  lemma FlagsOfDigits(f: seq<bool>, d0: int, d1: int, d2: int, d3: int, d4: int, d5: int)
    requires |f| == NumPasses
    requires (d0 % 2 == 1 <==> f[0]) && (d0 / 2 == 1 <==> f[1])
    requires (d1 % 2 == 1 <==> f[2]) && (d1 / 2 == 1 <==> f[3])
    requires (d2 % 2 == 1 <==> f[4]) && (d2 / 2 == 1 <==> f[5])
    requires (d5 % 2 == 1 <==> f[6])
    requires (d3 % 2 == 1 <==> f[7]) && (d3 / 2 == 1 <==> f[8])
    requires (d4 % 2 == 1 <==> f[9]) && (d4 / 2 == 1 <==> f[10])
    ensures forall q :: 0 <= q < NumPasses ==> FlagOfDigits(q, d0, d1, d2, d3, d4, d5) == f[q]
  {
  }

  /** A code written with the digits c0..c5 decodes to the flags of those digits. */
  lemma DecodeOfDigits(code: int, c0: int, c1: int, c2: int, c3: int, c4: int, c5: int)
    requires 0 <= c0 < 10 && 0 <= c1 < 10 && 0 <= c2 < 10 && 0 <= c3 < 10 && 0 <= c4 < 10 && 0 <= c5 < 10
    requires code == c0 + 10 * (c1 + 10 * (c2 + 10 * (c3 + 10 * (c4 + 10 * c5))))
    ensures forall q :: 0 <= q < NumPasses ==> Decode(code, q) == FlagOfDigits(q, c0, c1, c2, c3, c4, c5)
  {
    DigitsRead(c0, c1, c2, c3, c4, c5);
  }

  /** A code written with digits whose bits are the flags decodes to the flags. */
  lemma DecodeOfFlagDigits(f: seq<bool>, code: int, c0: int, c1: int, c2: int, c3: int, c4: int, c5: int)
    requires |f| == NumPasses
    requires 0 <= c0 < 10 && 0 <= c1 < 10 && 0 <= c2 < 10 && 0 <= c3 < 10 && 0 <= c4 < 10 && 0 <= c5 < 10
    requires code == c0 + 10 * (c1 + 10 * (c2 + 10 * (c3 + 10 * (c4 + 10 * c5))))
    requires (c0 % 2 == 1 <==> f[0]) && (c0 / 2 == 1 <==> f[1])
    requires (c1 % 2 == 1 <==> f[2]) && (c1 / 2 == 1 <==> f[3])
    requires (c2 % 2 == 1 <==> f[4]) && (c2 / 2 == 1 <==> f[5])
    requires (c5 % 2 == 1 <==> f[6])
    requires (c3 % 2 == 1 <==> f[7]) && (c3 / 2 == 1 <==> f[8])
    requires (c4 % 2 == 1 <==> f[9]) && (c4 / 2 == 1 <==> f[10])
    ensures forall q :: 0 <= q < NumPasses ==> Decode(code, q) == f[q]
  {
    DecodeOfDigits(code, c0, c1, c2, c3, c4, c5);
    FlagsOfDigits(f, c0, c1, c2, c3, c4, c5);
  }

  /** Decoding the code of any set of failed cuts gives back exactly that set. */
  lemma DecodeCode(f: seq<bool>)
    requires |f| == NumPasses
    ensures forall q :: 0 <= q < NumPasses ==> Decode(Code(f, NumPasses), q) == f[q]
  {
    BitsRead(f[0], f[1]);
    BitsRead(f[2], f[3]);
    BitsRead(f[4], f[5]);
    BitsRead(f[7], f[8]);
    BitsRead(f[9], f[10]);
    BitsRead(f[6], false);
    CodeDigits(f);
    DecodeOfFlagDigits(f, Code(f, NumPasses), B(f[0]) + 2 * B(f[1]), B(f[2]) + 2 * B(f[3]), B(f[4]) + 2 * B(f[5]),
                       B(f[7]) + 2 * B(f[8]), B(f[9]) + 2 * B(f[10]), B(f[6]) + 2 * B(false));
  }

  /** The final reject code of a track names exactly the applied cuts it failed. */
  lemma RejectDecodes(ts: seq<Track>, env: PruneEnv, i: nat)
    requires i < |ts|
    ensures forall q :: 0 <= q < NumPasses ==>
              (Decode(Pruned(ts, env, NumPasses).reject[i], q) <==> Applied(ts, env, q) && !Passes(q, ts[i], env))
  {
    RejectRecordsFailures(ts, env, NumPasses, i);
    DecodeCode(FailedPasses(ts, env, i));
  }

  /**
   * The final loop picks the earliest kept track with the smallest chi2/ndof,
   * provided one is below 1e10; otherwise it leaves track 0 and 1e10.
   */
  lemma {:induction false} BestKeptIsMin(ts: seq<Track>, keep: seq<bool>, n: nat)
    requires NonZeroDof(ts) && |keep| == |ts| && n <= |ts|
    ensures var p := BestKept(ts, keep, n);
            && p.chiMin <= NoChi
            && (p.chiMin == NoChi ==> p.good == 0 && forall j :: 0 <= j < n && keep[j] ==> Chi2PerDof(ts[j]) >= NoChi)
            && (p.chiMin < NoChi ==>
                  && p.good < n && keep[p.good] && p.chiMin == Chi2PerDof(ts[p.good])
                  && forall j :: 0 <= j < n && keep[j] ==>
                       p.chiMin <= Chi2PerDof(ts[j]) && (j < p.good ==> p.chiMin < Chi2PerDof(ts[j])))
  {
    if n > 0 {
      BestKeptIsMin(ts, keep, n - 1);
      var prev := BestKept(ts, keep, n - 1);
      var chi := Chi2PerDof(ts[n - 1]);
      if chi < prev.chiMin && keep[n - 1] {
        assert BestKept(ts, keep, n) == Pick(n - 1, chi);
      } else {
        assert BestKept(ts, keep, n) == prev;
      }
    }
  }

  /**
   * On a list without NULL entries the strategy ends on a track that survived
   * the cuts with the smallest chi2/ndof (earliest among equals) whenever a
   * survivor has chi2/ndof below 1e10.
   */
  lemma PruneChoosesBestSurvivor(s: seq<Option<Track>>, env: PruneEnv)
    requires PresentDofNonZero(s) && AllPresent(s)
    requires var ts := Values(s);
             exists j :: 0 <= j < |ts| && Pruned(ts, env, NumPasses).keep[j] && Chi2PerDof(ts[j]) < NoChi
    ensures var ts := Values(s);
            var keep := Pruned(ts, env, NumPasses).keep;
            var r := PruneSelection(s, env);
            && r.PrunePicked? && r.good < |ts| && keep[r.good] && r.chiMin == Chi2PerDof(ts[r.good])
            && forall j :: 0 <= j < |ts| && keep[j] ==>
                 r.chiMin <= Chi2PerDof(ts[j]) && (j < r.good ==> r.chiMin < Chi2PerDof(ts[j]))
  {
    var ts := Values(s);
    BestKeptIsMin(ts, Pruned(ts, env, NumPasses).keep, |ts|);
  }
}
