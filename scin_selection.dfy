/**
 * The scintillator golden-track strategy (sel_using_scin == 1): among the
 * tracks inside the dE/dx, beta and energy windows, prefer the smallest
 * 2Y paddle mismatch, then the smallest 2X mismatch, then the smallest
 * chi2/ndof; if none qualifies, fall back to the smallest chi2/ndof.
 */
module ScinSelection {
  import opened Wrappers
  import opened Tracks
  import opened Hodoscope

  /** The "no candidate yet" value of the chi2/ndof minimum. */
  const NoChi: real := 10000000000.0
  /** The "no candidate yet" value of both mismatch minima. */
  const NoMismatch: int := 100

  /** sel_ndegreesmin and the open windows sel_dedx1min/max, sel_betamin/max, sel_etmin/max. */
  datatype ScinCuts = ScinCuts(nDegMin: real, dedxMin: real, dedxMax: real,
                               betaMin: real, betaMax: real, etMin: real, etMax: real)

  /** Everything the strategy reads besides the tracks; `nint` is TMath::Nint. */
  datatype ScinContext = ScinContext(cuts: ScinCuts, hodo: HodoscopeView, nPlanes: int,
                                     geo: ScinGeometry, nint: real -> int)

  ghost predicate ValidContext(ctx: ScinContext) {
    ValidView(ctx.hodo, ctx.nPlanes)
  }

  predicate EnoughDof(t: Track, cuts: ScinCuts) {
    (t.ndof as real) > cuts.nDegMin
  }

  predicate InWindows(t: Track, cuts: ScinCuts) {
    && cuts.dedxMin < t.dedx < cuts.dedxMax
    && cuts.betaMin < t.beta < cuts.betaMax
    && cuts.etMin < t.energy < cuts.etMax
  }

  predicate Admissible(t: Track, cuts: ScinCuts) {
    EnoughDof(t, cuts) && InWindows(t, cuts)
  }

  /** chi2/ndof is formed only for tracks above the dof minimum; those must have ndof != 0. */
  predicate DofDefined(s: seq<Option<Track>>, cuts: ScinCuts) {
    forall i :: 0 <= i < |s| && s[i].Some? && EnoughDof(s[i].value, cuts) ==> s[i].value.ndof != 0
  }

  /** The running minima of the scan, the chosen index (-1: none) and the raw-hit cursor. */
  datatype ScinState = ScinState(good: int, yMin: int, xMin: int, chiMin: real, raw: int)

  const ScinStart := ScinState(-1, NoMismatch, NoMismatch, NoChi, -1)

  /** What the strategy ranks a track by: 2Y mismatch, 2X mismatch, chi2/ndof. */
  datatype Key = Key(y2d: int, x2d: int, chi: real)

  predicate KeyLess(a: Key, b: Key) {
    a.y2d < b.y2d || (a.y2d == b.y2d && (a.x2d < b.x2d || (a.x2d == b.x2d && a.chi < b.chi)))
  }

  predicate KeyLe(a: Key, b: Key) {
    KeyLess(a, b) || a == b
  }

  /**
   * The key of an admissible track whose hits start at raw index `base`.
   * Both mismatches are 0 in a one-track event.
   */
  function TrackKey(t: Track, base: nat, nTracks: nat, ctx: ScinContext): (k: Key)
    requires ValidContext(ctx) && t.ndof != 0
    ensures k.chi == Chi2PerDof(t)
    ensures nTracks <= 1 ==> k.y2d == 0 && k.x2d == 0
  {
    var h := ctx.hodo;
    var yMask := PlaneMask(h, ctx.nPlanes, base, PlaneY, h.nPaddles[PlaneY]);
    var xMask := PlaneMask(h, ctx.nPlanes, base, PlaneX, h.nPaddles[PlaneX]);
    var y2d := if nTracks > 1 then FirstSixMismatch(yMask, ExpectedPaddleY(t, h, ctx.geo, ctx.nint)) else 0;
    var x2d := if nTracks > 1 then FirstSixMismatch(xMask, ExpectedPaddleX(t, h, ctx.geo, ctx.nint)) else 0;
    Key(y2d, x2d, Chi2PerDof(t))
  }

  /**
   * The nested comparison of the scan. A smaller 2Y mismatch resets the 2X and
   * chi2 minima, a smaller 2X mismatch resets the chi2 minimum, and the track
   * is taken only if its chi2/ndof is below the (possibly reset) minimum.
   */
  function Compare(st: ScinState, i: nat, k: Key): (r: ScinState)
    ensures r.raw == st.raw
    ensures r.good == st.good || r.good == i
  {
    if k.y2d <= st.yMin then
      var st1 := if k.y2d < st.yMin then st.(xMin := NoMismatch, chiMin := NoChi) else st;
      if k.x2d <= st1.xMin then
        var st2 := if k.x2d < st1.xMin then st1.(chiMin := NoChi) else st1;
        if k.chi < st2.chiMin then st2.(good := i, yMin := k.y2d, xMin := k.x2d, chiMin := k.chi) else st2
      else st1
    else st
  }

  /** Track i of the scan: only admissible tracks consume raw hits and are compared. */
  function ScinStep(st: ScinState, i: nat, t: Track, nTracks: nat, ctx: ScinContext): (r: ScinState)
    requires ValidContext(ctx) && st.raw >= -1
    requires EnoughDof(t, ctx.cuts) ==> t.ndof != 0
    ensures r.raw == st.raw + (if Admissible(t, ctx.cuts) then HitsPerScan(ctx.hodo, ctx.nPlanes) else 0)
    ensures r.good == st.good || r.good == i
  {
    if Admissible(t, ctx.cuts) then
      Compare(st.(raw := st.raw + HitsPerScan(ctx.hodo, ctx.nPlanes)), i, TrackKey(t, st.raw + 1, nTracks, ctx))
    else st
  }

  /** The scan over the first k tracks; None once a NULL entry is met. */
  function ScanPrefix(s: seq<Option<Track>>, ctx: ScinContext, k: nat): (r: Option<ScinState>)
    requires ValidContext(ctx) && DofDefined(s, ctx.cuts) && k <= |s|
    ensures r.Some? ==> r.value.raw >= -1
  {
    if k == 0 then Some(ScinStart)
    else
      match ScanPrefix(s, ctx, k - 1)
      case None => None
      case Some(st) =>
        if s[k - 1].None? then None else Some(ScinStep(st, k - 1, s[k - 1].value, |s|, ctx))
  }

  /** The chosen index and chi2/ndof minimum of the fallback loop. */
  datatype Pick = Pick(good: int, chiMin: real)

  /** The fallback over the first k tracks: earliest smallest chi2/ndof above the dof minimum. */
  function FallbackPrefix(s: seq<Option<Track>>, cuts: ScinCuts, k: nat): (p: Pick)
    requires DofDefined(s, cuts) && AllPresent(s) && k <= |s|
    ensures p.good == -1 || (0 <= p.good < k && EnoughDof(s[p.good].value, cuts))
  {
    if k == 0 then Pick(-1, NoChi)
    else
      var p := FallbackPrefix(s, cuts, k - 1);
      var t := s[k - 1].value;
      if EnoughDof(t, cuts) && Chi2PerDof(t) < p.chiMin then Pick(k - 1, Chi2PerDof(t)) else p
  }

  /** The index of the first NULL entry, or the length if there is none. */
  function FirstNull(s: seq<Option<Track>>): (n: nat)
    ensures n <= |s| && (forall j :: 0 <= j < n ==> s[j].Some?) && (n < |s| ==> s[n].None?)
  {
    if s == [] then 0
    else if s[0].None? then 0
    else 1 + FirstNull(s[1..])
  }

  /**
   * What the strategy leaves behind: fGoodTrack and fChi2Min, with `aborted`
   * when a NULL entry made TrackCalc return -1 (the choice made before it stays).
   */
  datatype ScinOutcome = ScinOutcome(aborted: bool, good: int, chiMin: real)

  /** The whole strategy: the scan up to the first NULL entry, then the fallback if it chose nothing. */
  function ScinSelection(s: seq<Option<Track>>, ctx: ScinContext): ScinOutcome
    requires ValidContext(ctx) && DofDefined(s, ctx.cuts)
  {
    var n0 := FirstNull(s);
    ScanAbortsIffNull(s, ctx, n0);
    var st := ScanPrefix(s, ctx, n0).value;
    if n0 < |s| then ScinOutcome(true, st.good, st.chiMin)
    else if st.good != -1 then ScinOutcome(false, st.good, st.chiMin)
    else
      var p := FallbackPrefix(s, ctx.cuts, |s|);
      ScinOutcome(false, p.good, p.chiMin)
  }

  // ---------------------------------------------------------------------------
  // The loops

  /** One iteration of the scan loop, marking the hit arrays for an admissible track. */
  method ScanTrack(t: Track, i: nat, st: ScinState, nTracks: nat, ctx: ScinContext,
                   xHits: array<int>, yHits: array<int>) returns (next: ScinState)
    requires ValidContext(ctx) && st.raw >= -1 && (EnoughDof(t, ctx.cuts) ==> t.ndof != 0)
    requires Admissible(t, ctx.cuts) ==> ScanPadsFit(ctx.hodo, ctx.nPlanes, st.raw + 1)
    requires xHits.Length == ctx.hodo.nPaddles[PlaneX] && yHits.Length == ctx.hodo.nPaddles[PlaneY]
    requires xHits != yHits
    modifies xHits, yHits
    ensures next == ScinStep(st, i, t, nTracks, ctx)
  {
    next := st;
    if EnoughDof(t, ctx.cuts) {
      var chi := Chi2PerDof(t);
      if InWindows(t, ctx.cuts) {
        var h := ctx.hodo;
        var raw := MarkHits(h, ctx.nPlanes, st.raw, xHits, yHits);
        var cnt4 := ExpectedPaddleY(t, h, ctx.geo, ctx.nint);
        var y2d: nat := 0;
        if nTracks > 1 {
          y2d := PlaneMismatch(yHits, cnt4);
        }
        var cnt3 := ExpectedPaddleX(t, h, ctx.geo, ctx.nint);
        var x2d: nat := 0;
        if nTracks > 1 {
          x2d := PlaneMismatch(xHits, cnt3);
        }
        next := Compare(st.(raw := raw), i, Key(y2d, x2d, chi));
      }
    }
  }

  /**
   * The scintillator strategy on a track array with at least one entry: a scan
   * loop with the hit arrays allocated once, then the fallback loop.
   */
  method ScinSelect(a: array<Option<Track>>, ctx: ScinContext) returns (outcome: ScinOutcome)
    requires ValidContext(ctx) && DofDefined(a[..], ctx.cuts)
    requires PadsFitScans(ctx.hodo, ctx.nPlanes, a.Length)
    ensures outcome == ScinSelection(a[..], ctx)
  {
    var xHits := new int[ctx.hodo.nPaddles[PlaneX]];
    var yHits := new int[ctx.hodo.nPaddles[PlaneY]];
    var st := ScinStart;
    for i := 0 to a.Length
      invariant forall j :: 0 <= j < i ==> a[j].Some?
      invariant ScanPrefix(a[..], ctx, i) == Some(st)
    {
      if a[i].None? {
        assert FirstNull(a[..]) == i;
        return ScinOutcome(true, st.good, st.chiMin);
      }
      PadsFitAtCursor(a[..], ctx, i);
      st := ScanTrack(a[i].value, i, st, a.Length, ctx, xHits, yHits);
    }
    assert FirstNull(a[..]) == a.Length;
    if st.good != -1 {
      return ScinOutcome(false, st.good, st.chiMin);
    }
    var pick := Pick(-1, NoChi);
    for i := 0 to a.Length
      invariant forall j :: 0 <= j < a.Length ==> a[j].Some?
      invariant FallbackPrefix(a[..], ctx.cuts, i) == pick
    {
      var t := a[i].value;
      if EnoughDof(t, ctx.cuts) {
        var chi := Chi2PerDof(t);
        if chi < pick.chiMin {
          pick := Pick(i, chi);
        }
      }
    }
    outcome := ScinOutcome(false, pick.good, pick.chiMin);
  }

  // ---------------------------------------------------------------------------
  // Properties

  /** The scan aborts exactly when the track list holds a NULL entry. */
  lemma {:induction false} ScanAbortsIffNull(s: seq<Option<Track>>, ctx: ScinContext, k: nat)
    requires ValidContext(ctx) && DofDefined(s, ctx.cuts) && k <= |s|
    ensures ScanPrefix(s, ctx, k).None? <==> exists j :: 0 <= j < k && s[j].None?
  {
    if k > 0 {
      ScanAbortsIffNull(s, ctx, k - 1);
    }
  }

  /**
   * The strategy aborts exactly when the list holds a NULL entry, and then
   * keeps the choice the scan had made over the entries before the first one.
   */
  lemma ScinAbortsIffNull(s: seq<Option<Track>>, ctx: ScinContext)
    requires ValidContext(ctx) && DofDefined(s, ctx.cuts)
    ensures var r := ScinSelection(s, ctx);
            && (r.aborted <==> exists j :: 0 <= j < |s| && s[j].None?)
            && (r.aborted ==> exists n :: 0 <= n < |s| && s[n].None? && AllPresent(s[..n])
                                && ScanPrefix(s, ctx, n).Some?
                                && ScanPrefix(s, ctx, n).value.good == r.good
                                && ScanPrefix(s, ctx, n).value.chiMin == r.chiMin)
  {
    var n0 := FirstNull(s);
    ScanAbortsIffNull(s, ctx, n0);
    if n0 < |s| {
      assert forall j :: 0 <= j < n0 ==> s[..n0][j] == s[j];
    }
  }

  /** Admissible tracks among the first k entries. */
  function AdmissibleBefore(s: seq<Option<Track>>, cuts: ScinCuts, k: nat): (n: nat)
    requires k <= |s|
    ensures n <= k
  {
    if k == 0 then 0
    else AdmissibleBefore(s, cuts, k - 1) + (if s[k - 1].Some? && Admissible(s[k - 1].value, cuts) then 1 else 0)
  }

  /** The raw-hit cursor advances by one full pass over the planes per admissible track, from -1. */
  lemma {:induction false} RawIndexClosedForm(s: seq<Option<Track>>, ctx: ScinContext, k: nat)
    requires ValidContext(ctx) && DofDefined(s, ctx.cuts) && k <= |s|
    requires ScanPrefix(s, ctx, k).Some?
    ensures ScanPrefix(s, ctx, k).value.raw ==
            AdmissibleBefore(s, ctx.cuts, k) * HitsPerScan(ctx.hodo, ctx.nPlanes) - 1
  {
    if k > 0 {
      RawIndexClosedForm(s, ctx, k - 1);
      var st := ScanPrefix(s, ctx, k - 1).value;
      var t := s[k - 1].value;
      var h := HitsPerScan(ctx.hodo, ctx.nPlanes);
      if Admissible(t, ctx.cuts) {
        assert ScanPrefix(s, ctx, k).value.raw == st.raw + h;
        assert (AdmissibleBefore(s, ctx.cuts, k - 1) + 1) * h == AdmissibleBefore(s, ctx.cuts, k - 1) * h + h;
      }
    }
  }

  /** Wherever the scan's cursor stands before track j, the pads of the pass read from there fit their planes. */
  lemma PadsFitAtCursor(s: seq<Option<Track>>, ctx: ScinContext, j: nat)
    requires ValidContext(ctx) && DofDefined(s, ctx.cuts) && j < |s|
    requires ScanPrefix(s, ctx, j).Some? && PadsFitScans(ctx.hodo, ctx.nPlanes, |s|)
    ensures ScanPadsFit(ctx.hodo, ctx.nPlanes, ScanPrefix(s, ctx, j).value.raw + 1)
  {
    RawIndexClosedForm(s, ctx, j);
    var k := AdmissibleBefore(s, ctx.cuts, j);
    assert ScanStart(ctx.hodo, ctx.nPlanes, k) == ScanPrefix(s, ctx, j).value.raw + 1;
  }

  /** The key of admissible track j, its hits read where the scan's cursor stands when it reaches j. */
  function KeyAt(s: seq<Option<Track>>, ctx: ScinContext, j: nat): Key
    requires ValidContext(ctx) && DofDefined(s, ctx.cuts)
    requires j < |s| && s[j].Some? && Admissible(s[j].value, ctx.cuts)
  {
    TrackKey(s[j].value, AdmissibleBefore(s, ctx.cuts, j) * HitsPerScan(ctx.hodo, ctx.nPlanes), |s|, ctx)
  }

  /**
   * The conditions under which the sentinels 100 and 1e10 never win: both
   * matching planes have at most 101 paddles and every admissible track has
   * chi2/ndof below 1e10.
   */
  ghost predicate Realistic(s: seq<Option<Track>>, ctx: ScinContext)
    requires DofDefined(s, ctx.cuts)
  {
    && |ctx.hodo.nPaddles| >= 4
    && ctx.hodo.nPaddles[PlaneX] <= NoMismatch + 1 && ctx.hodo.nPaddles[PlaneY] <= NoMismatch + 1
    && forall j :: 0 <= j < |s| && s[j].Some? && Admissible(s[j].value, ctx.cuts) ==> Chi2PerDof(s[j].value) < NoChi
  }

  /** Under realistic inputs every key lies strictly below the starting sentinels. */
  lemma KeyBelowSentinels(t: Track, base: nat, nTracks: nat, ctx: ScinContext)
    requires ValidContext(ctx) && t.ndof != 0 && Chi2PerDof(t) < NoChi
    requires ctx.hodo.nPaddles[PlaneX] <= NoMismatch + 1 && ctx.hodo.nPaddles[PlaneY] <= NoMismatch + 1
    ensures var k := TrackKey(t, base, nTracks, ctx);
            k.y2d <= NoMismatch && k.x2d <= NoMismatch && KeyLess(k, Key(NoMismatch, NoMismatch, NoChi))
  {
    var h := ctx.hodo;
    // a plane without paddles has an empty mask, hence no hit and mismatch 0
    if h.nPaddles[PlaneY] >= 1 {
      MismatchBelowPaddleCount(PlaneMask(h, ctx.nPlanes, base, PlaneY, h.nPaddles[PlaneY]), ExpectedPaddleY(t, h, ctx.geo, ctx.nint));
    }
    if h.nPaddles[PlaneX] >= 1 {
      MismatchBelowPaddleCount(PlaneMask(h, ctx.nPlanes, base, PlaneX, h.nPaddles[PlaneX]), ExpectedPaddleX(t, h, ctx.geo, ctx.nint));
    }
  }

  /**
   * With keys below the sentinels, the nested comparison with its partial
   * resets takes the track exactly when its key is lexicographically smaller
   * than the current minima, and otherwise changes nothing.
   */
  lemma CompareIsLexicographic(st: ScinState, i: nat, k: Key)
    requires k.y2d <= NoMismatch && k.x2d <= NoMismatch && k.chi < NoChi
    ensures KeyLess(k, Key(st.yMin, st.xMin, st.chiMin)) ==>
            Compare(st, i, k) == st.(good := i, yMin := k.y2d, xMin := k.x2d, chiMin := k.chi)
    ensures !KeyLess(k, Key(st.yMin, st.xMin, st.chiMin)) ==> Compare(st, i, k) == st
  {
  }

  /**
   * What the scan knows after k entries, over any admissibility flags and keys:
   * no choice iff nothing admissible so far, else the earliest smallest key.
   */
  ghost predicate BestSoFar(adm: seq<bool>, keys: seq<Key>, k: nat, st: ScinState)
    requires |adm| == |keys| && k <= |adm|
  {
    && (st.good == -1 <==> forall j :: 0 <= j < k ==> !adm[j])
    && (st.good == -1 ==> st.yMin == NoMismatch && st.xMin == NoMismatch && st.chiMin == NoChi)
    && (st.good != -1 ==>
          && 0 <= st.good < k && adm[st.good]
          && Key(st.yMin, st.xMin, st.chiMin) == keys[st.good]
          && forall j :: 0 <= j < k && adm[j] ==>
               KeyLe(keys[st.good], keys[j]) && (j < st.good ==> KeyLess(keys[st.good], keys[j])))
  }

  /** One step of the scan keeps BestSoFar, as long as keys stay below the sentinels. */
  lemma BestSoFarStep(adm: seq<bool>, keys: seq<Key>, k: nat, st: ScinState, raw: int, next: ScinState)
    requires |adm| == |keys| && 0 < k <= |adm| && BestSoFar(adm, keys, k - 1, st)
    requires adm[k - 1] ==> keys[k - 1].y2d <= NoMismatch && keys[k - 1].x2d <= NoMismatch && keys[k - 1].chi < NoChi
    requires adm[k - 1] ==> next == Compare(st.(raw := raw), k - 1, keys[k - 1])
    requires !adm[k - 1] ==> next == st
    ensures BestSoFar(adm, keys, k, next)
  {
    if adm[k - 1] {
      var key := keys[k - 1];
      CompareIsLexicographic(st.(raw := raw), k - 1, key);
      if KeyLess(key, Key(st.yMin, st.xMin, st.chiMin)) {
        assert next.good == k - 1 && Key(next.yMin, next.xMin, next.chiMin) == key;
        forall j | 0 <= j < k && adm[j]
          ensures KeyLe(key, keys[j]) && (j < k - 1 ==> KeyLess(key, keys[j]))
        {
          if j < k - 1 {
            assert st.good != -1;
            assert KeyLe(keys[st.good], keys[j]);
          }
        }
      } else {
        assert st.good != -1;
        assert next.good == st.good;
      }
    }
  }

  /** The admissibility of every entry. */
  ghost function AdmFlags(s: seq<Option<Track>>, cuts: ScinCuts): (r: seq<bool>)
    ensures |r| == |s| && forall j :: 0 <= j < |s| ==> (r[j] <==> s[j].Some? && Admissible(s[j].value, cuts))
  {
    seq(|s|, j requires 0 <= j < |s| => s[j].Some? && Admissible(s[j].value, cuts))
  }

  /**
   * `keys` holds the key of every admissible entry (anything elsewhere). The
   * quantifier fires only on KeyAt terms, so a proof that merely compares
   * keys never unfolds how they are computed.
   */
  ghost predicate KeysFit(s: seq<Option<Track>>, ctx: ScinContext, keys: seq<Key>)
    requires ValidContext(ctx) && DofDefined(s, ctx.cuts)
  {
    && |keys| == |s|
    && forall j {:trigger KeyAt(s, ctx, j)} :: 0 <= j < |s| && s[j].Some? && Admissible(s[j].value, ctx.cuts) ==>
         keys[j] == KeyAt(s, ctx, j)
  }

  /** The key of every admissible entry (an arbitrary key elsewhere). */
  ghost function Keys(s: seq<Option<Track>>, ctx: ScinContext): (r: seq<Key>)
    requires ValidContext(ctx) && DofDefined(s, ctx.cuts)
    ensures KeysFit(s, ctx, r)
  {
    seq(|s|, j requires 0 <= j < |s| =>
      if s[j].Some? && Admissible(s[j].value, ctx.cuts) then KeyAt(s, ctx, j) else Key(0, 0, 0.0))
  }

  /** The key of admissible entry j is the one computed where the scan's cursor stands. */
  lemma KeyAtCursor(s: seq<Option<Track>>, ctx: ScinContext, j: nat)
    requires ValidContext(ctx) && DofDefined(s, ctx.cuts) && j < |s|
    requires s[j].Some? && Admissible(s[j].value, ctx.cuts) && ScanPrefix(s, ctx, j).Some?
    ensures KeyAt(s, ctx, j) == TrackKey(s[j].value, ScanPrefix(s, ctx, j).value.raw + 1, |s|, ctx)
  {
    RawIndexClosedForm(s, ctx, j);
  }

  /** Under realistic inputs the key of an admissible entry lies below the sentinels. */
  lemma KeyAtBelowSentinels(s: seq<Option<Track>>, ctx: ScinContext, j: nat)
    requires ValidContext(ctx) && DofDefined(s, ctx.cuts) && j < |s| && Realistic(s, ctx)
    requires s[j].Some? && Admissible(s[j].value, ctx.cuts)
    ensures KeyAt(s, ctx, j).y2d <= NoMismatch && KeyAt(s, ctx, j).x2d <= NoMismatch && KeyAt(s, ctx, j).chi < NoChi
  {
    KeyBelowSentinels(s[j].value, AdmissibleBefore(s, ctx.cuts, j) * HitsPerScan(ctx.hodo, ctx.nPlanes), |s|, ctx);
  }

  /** The scan's step on entry k-1: an admissible entry is compared by its key, any other is skipped. */
  lemma ScanStepShape(s: seq<Option<Track>>, ctx: ScinContext, k: nat)
    requires ValidContext(ctx) && DofDefined(s, ctx.cuts) && 0 < k <= |s|
    requires ScanPrefix(s, ctx, k).Some?
    ensures ScanPrefix(s, ctx, k - 1).Some? && s[k - 1].Some?
    ensures var st := ScanPrefix(s, ctx, k - 1).value;
            var next := ScanPrefix(s, ctx, k).value;
            && (Admissible(s[k - 1].value, ctx.cuts) ==>
                  next == Compare(st.(raw := st.raw + HitsPerScan(ctx.hodo, ctx.nPlanes)), k - 1, KeyAt(s, ctx, k - 1)))
            && (!Admissible(s[k - 1].value, ctx.cuts) ==> next == st)
  {
    if Admissible(s[k - 1].value, ctx.cuts) {
      KeyAtCursor(s, ctx, k - 1);
    }
  }

  /** One step of the scan keeps BestSoFar, for any keys that fit. */
  lemma ScanKeepsInvStep(s: seq<Option<Track>>, ctx: ScinContext, k: nat, keys: seq<Key>, st: ScinState, next: ScinState)
    requires ValidContext(ctx) && DofDefined(s, ctx.cuts) && 0 < k <= |s| && Realistic(s, ctx)
    requires KeysFit(s, ctx, keys) && s[k - 1].Some?
    requires Admissible(s[k - 1].value, ctx.cuts) ==>
               next == Compare(st.(raw := st.raw + HitsPerScan(ctx.hodo, ctx.nPlanes)), k - 1, KeyAt(s, ctx, k - 1))
    requires !Admissible(s[k - 1].value, ctx.cuts) ==> next == st
    requires BestSoFar(AdmFlags(s, ctx.cuts), keys, k - 1, st)
    ensures BestSoFar(AdmFlags(s, ctx.cuts), keys, k, next)
  {
    if Admissible(s[k - 1].value, ctx.cuts) {
      KeyAtBelowSentinels(s, ctx, k - 1);
    }
    BestSoFarStep(AdmFlags(s, ctx.cuts), keys, k, st, st.raw + HitsPerScan(ctx.hodo, ctx.nPlanes), next);
  }

  /** The scan over the first k entries chooses as BestSoFar says. */
  lemma {:induction false} ScanKeepsInv(s: seq<Option<Track>>, ctx: ScinContext, k: nat, keys: seq<Key>)
    requires ValidContext(ctx) && DofDefined(s, ctx.cuts) && k <= |s| && Realistic(s, ctx)
    requires KeysFit(s, ctx, keys)
    requires ScanPrefix(s, ctx, k).Some?
    ensures BestSoFar(AdmFlags(s, ctx.cuts), keys, k, ScanPrefix(s, ctx, k).value)
  {
    if k > 0 {
      ScanAbortsIffNull(s, ctx, k);
      ScanAbortsIffNull(s, ctx, k - 1);
      ScanKeepsInv(s, ctx, k - 1, keys);
      ScanStepShape(s, ctx, k);
      ScanKeepsInvStep(s, ctx, k, keys, ScanPrefix(s, ctx, k - 1).value, ScanPrefix(s, ctx, k).value);
    }
  }

  /**
   * When some track is admissible, the strategy picks the one with the
   * lexicographically smallest (2Y mismatch, 2X mismatch, chi2/ndof), the
   * earliest among equals, and records its chi2/ndof.
   */
  lemma ScinPicksLexMin(s: seq<Option<Track>>, ctx: ScinContext)
    requires ValidContext(ctx) && DofDefined(s, ctx.cuts) && AllPresent(s) && Realistic(s, ctx)
    requires exists j :: 0 <= j < |s| && Admissible(s[j].value, ctx.cuts)
    ensures var r := ScinSelection(s, ctx);
            && !r.aborted && 0 <= r.good < |s| && Admissible(s[r.good].value, ctx.cuts)
            && r.chiMin == Chi2PerDof(s[r.good].value)
            && forall j :: 0 <= j < |s| && Admissible(s[j].value, ctx.cuts) ==>
                 KeyLe(KeyAt(s, ctx, r.good), KeyAt(s, ctx, j)) &&
                 (j < r.good ==> KeyLess(KeyAt(s, ctx, r.good), KeyAt(s, ctx, j)))
  {
    assert FirstNull(s) == |s|;
    ScanAbortsIffNull(s, ctx, |s|);
    var keys := Keys(s, ctx);
    ScanKeepsInv(s, ctx, |s|, keys);
    var st := ScanPrefix(s, ctx, |s|).value;
    var adm := AdmFlags(s, ctx.cuts);
    var j0 :| 0 <= j0 < |s| && Admissible(s[j0].value, ctx.cuts);
    assert adm[j0];
    assert st.good != -1;
    assert keys[st.good] == KeyAt(s, ctx, st.good);
  }

  /** What the fallback knows after k tracks. */
  ghost predicate FallbackInv(s: seq<Option<Track>>, cuts: ScinCuts, k: nat, p: Pick)
    requires DofDefined(s, cuts) && k <= |s| && AllPresent(s)
  {
    && (p.good == -1 ==>
          && p.chiMin == NoChi
          && forall j :: 0 <= j < k && EnoughDof(s[j].value, cuts) ==> Chi2PerDof(s[j].value) >= NoChi)
    && (p.good != -1 ==>
          && 0 <= p.good < k && EnoughDof(s[p.good].value, cuts)
          && p.chiMin == Chi2PerDof(s[p.good].value) < NoChi
          && forall j :: 0 <= j < k && EnoughDof(s[j].value, cuts) ==>
               p.chiMin <= Chi2PerDof(s[j].value) && (j < p.good ==> p.chiMin < Chi2PerDof(s[j].value)))
  }

  lemma {:induction false} FallbackKeepsInv(s: seq<Option<Track>>, cuts: ScinCuts, k: nat)
    requires DofDefined(s, cuts) && k <= |s| && AllPresent(s)
    ensures FallbackInv(s, cuts, k, FallbackPrefix(s, cuts, k))
  {
    if k > 0 {
      FallbackKeepsInv(s, cuts, k - 1);
    }
  }

  /**
   * When no track is admissible, the strategy falls back to the earliest
   * track with the smallest chi2/ndof among those above the dof minimum; it
   * picks none (-1) exactly when every such chi2/ndof is at least 1e10.
   */
  lemma ScinFallsBackToMinChi(s: seq<Option<Track>>, ctx: ScinContext)
    requires ValidContext(ctx) && DofDefined(s, ctx.cuts) && AllPresent(s)
    requires forall j :: 0 <= j < |s| ==> !Admissible(s[j].value, ctx.cuts)
    ensures var r := ScinSelection(s, ctx);
            && !r.aborted
            && (r.good == -1 <==> forall j :: 0 <= j < |s| && EnoughDof(s[j].value, ctx.cuts) ==> Chi2PerDof(s[j].value) >= NoChi)
            && (r.good != -1 ==>
                  && 0 <= r.good < |s| && EnoughDof(s[r.good].value, ctx.cuts)
                  && r.chiMin == Chi2PerDof(s[r.good].value)
                  && forall j :: 0 <= j < |s| && EnoughDof(s[j].value, ctx.cuts) ==>
                       r.chiMin <= Chi2PerDof(s[j].value) && (j < r.good ==> r.chiMin < Chi2PerDof(s[j].value)))
  {
    assert FirstNull(s) == |s|;
    ScanAbortsIffNull(s, ctx, |s|);
    NoAdmissibleKeepsStart(s, ctx, |s|);
    FallbackKeepsInv(s, ctx.cuts, |s|);
  }

  /** Without admissible tracks the scan never leaves its starting choice -1. */
  lemma {:induction false} NoAdmissibleKeepsStart(s: seq<Option<Track>>, ctx: ScinContext, k: nat)
    requires ValidContext(ctx) && DofDefined(s, ctx.cuts) && k <= |s| && AllPresent(s)
    requires forall j :: 0 <= j < |s| ==> !Admissible(s[j].value, ctx.cuts)
    ensures ScanPrefix(s, ctx, k).Some? && ScanPrefix(s, ctx, k).value.good == -1
  {
    if k > 0 {
      NoAdmissibleKeepsStart(s, ctx, k - 1);
    }
  }
}
