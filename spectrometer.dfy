/**
 * THcHallCSpectrometer: the Hall C spectrometer apparatus. It loads the
 * reconstruction matrix, reconstructs target quantities for every track
 * (FindVertices) and chooses the golden track (TrackCalc) by one of three
 * strategies selected by sel_using_scin and sel_using_prune.
 */
module HallCSpectrometer {
  import opened Wrappers
  import opened Tracks
  import opened ReconCoefficients
  import opened TransportMap
  import opened Hodoscope
  import opened ScinSelection
  import PS = PruneSelection

  // ---------------------------------------------------------------------------
  // The track-sorting property bit

  /** kSortTracks, the bit of fProperties that enables sorting by chi2/ndof. */
  const SortTracks: bv32 := 1

  function SortingOf(props: bv32): bool {
    props & SortTracks != 0
  }

  /** fProperties after SetTrSorting(enable): the bit set or cleared, every other bit kept. */
  function WithSorting(props: bv32, enable: bool): (r: bv32)
    ensures SortingOf(r) == enable
    ensures r & !SortTracks == props & !SortTracks
  {
    if enable then props | SortTracks else props & !SortTracks
  }

  // ---------------------------------------------------------------------------
  // What ReadDatabase reads from the parameter store

  /**
   * The values LoadParmValues delivers: the target offsets, the central
   * momentum and its offset in percent, the strategy flags, the
   * scintillator-strategy cuts and geometry, and the prune thresholds.
   */
  datatype DbParams = DbParams(
    thetaOffset: real, phiOffset: real, deltaOffset: real,
    pcentralOffset: real, pcentral: real,
    selUsingScin: int, selUsingPrune: int,
    scinCuts: ScinCuts, nPlanes: int, geo: ScinGeometry,
    pruneCuts: PS.PruneCuts)

  /** The central momentum corrected by its offset in percent. */
  function CorrectedPcentral(db: DbParams): real {
    db.pcentral * (1.0 + db.pcentralOffset / 100.0)
  }

  // ---------------------------------------------------------------------------
  // FindVertices as a function of the track list

  function ReconstructAll(ts: seq<Track>, cal: Calibration, kin: Kinematics, terms: seq<ReconTerm>): (r: seq<Track>)
    ensures |r| == |ts| && forall i :: 0 <= i < |ts| ==> r[i] == Reconstruct(ts[i], cal, kin, terms)
  {
    seq(|ts|, i requires 0 <= i < |ts| => Reconstruct(ts[i], cal, kin, terms))
  }

  /** Reconstruction rewrites only the target quantities: the tracking results are kept. */
  lemma {:induction false} ReconstructAllKeepsFocalPlane(ts: seq<Track>, cal: Calibration, kin: Kinematics,
                                                          terms: seq<ReconTerm>, i: nat)
    requires i < |ts|
    ensures var u := ReconstructAll(ts, cal, kin, terms)[i];
            && u.x == ts[i].x && u.theta == ts[i].theta && u.y == ts[i].y && u.phi == ts[i].phi
            && u.ndof == ts[i].ndof && u.chi2 == ts[i].chi2 && u.beta == ts[i].beta
            && u.p == kin.pcentral * (1.0 + u.dp / 100.0) && u.tX == 0.0
  {
    ReconstructProperties(ts[i], cal, kin, terms);
  }

  // ---------------------------------------------------------------------------
  // TrackCalc as a function of the configuration and the event

  /** The configuration TrackCalc reads. */
  datatype Config = Config(sorting: bool, selUsingScin: int, selUsingPrune: int,
                           scinCuts: ScinCuts, nPlanes: int, geo: ScinGeometry)

  /**
   * What TrackCalc reads and writes: its return value, the track list, the
   * golden track (an index into the list; None is NULL), fGoodTrack, fChi2Min
   * and the prune thresholds it clamps.
   */
  datatype Selection = Selection(ret: int, tracks: seq<Option<Track>>, golden: Option<nat>,
                                 goodTrack: int, chi2Min: real, pruneCuts: PS.PruneCuts)

  predicate DefaultRuns(c: Config) {
    c.selUsingScin == 0 && c.selUsingPrune == 0
  }

  function ScinContextOf(c: Config, hodo: HodoscopeView, nint: real -> int): ScinContext {
    ScinContext(c.scinCuts, hodo, c.nPlanes, c.geo, nint)
  }

  /**
   * What each strategy that runs needs of the event: the default strategy
   * dereferences every entry it sorts or selects and divides by ndof when
   * sorting, the other two divide by ndof as their comments state.
   */
  ghost predicate CalcDefined(c: Config, s: seq<Option<Track>>, hodo: HodoscopeView) {
    && (DefaultRuns(c) ==> AllPresent(s) && (c.sorting ==> NonZeroDof(Values(s))))
    && (c.selUsingScin == 1 ==> ValidView(hodo, c.nPlanes) && DofDefined(s, c.scinCuts))
    && (c.selUsingPrune == 1 ==> PS.PresentDofNonZero(s))
  }

  /** The default strategy: sort if enabled, then the first track is golden. */
  function DefaultStage(s: Selection, sorting: bool): (r: Selection)
    requires AllPresent(s.tracks) && (sorting ==> NonZeroDof(Values(s.tracks)))
    ensures |r.tracks| == |s.tracks|
  {
    var ts := if sorting then Present(SortByChi2(Values(s.tracks))) else s.tracks;
    s.(tracks := ts, golden := if |ts| > 0 then Some(0) else None)
  }

  /** The scintillator strategy; the golden track follows fGoodTrack whenever that names a track. */
  function ScinStage(s: Selection, ctx: ScinContext): (r: Selection)
    requires ValidContext(ctx) && DofDefined(s.tracks, ctx.cuts)
    ensures r.tracks == s.tracks && r.pruneCuts == s.pruneCuts
    ensures r.ret == s.ret || r.ret == -1
  {
    if |s.tracks| == 0 then s.(golden := None)
    else
      var o := ScinSelection.ScinSelection(s.tracks, ctx);
      s.(ret := if o.aborted then -1 else s.ret, goodTrack := o.good, chi2Min := o.chiMin,
         golden := if o.good >= 0 then Some(o.good as nat) else s.golden)
  }

  /** The prune strategy: the thresholds are clamped first, even without tracks. */
  function PruneStage(s: Selection, betaOf: real -> real, startTime: real): (r: Selection)
    requires PS.PresentDofNonZero(s.tracks)
    ensures r.tracks == s.tracks && r.pruneCuts == PS.ClampCuts(s.pruneCuts)
    ensures r.ret == s.ret || r.ret == -1
  {
    var s1 := s.(pruneCuts := PS.ClampCuts(s.pruneCuts));
    if |s.tracks| == 0 then s1.(golden := None)
    else
      match PS.PruneSelection(s.tracks, PS.PruneEnv(s1.pruneCuts, betaOf, startTime))
      case PruneAborted => s1.(ret := -1, goodTrack := 0, chi2Min := PS.NoChi)
      case PrunePicked(g, chi) => s1.(goodTrack := g, chi2Min := chi, golden := Some(g))
  }

  /**
   * TrackCalc: the default strategy when both flags are 0, then the
   * scintillator strategy when its flag is 1, then, unless that returned -1,
   * the prune strategy when its flag is 1. TrackTimes returns 0.
   */
  function TrackCalcSpec(c: Config, s0: Selection, hodo: HodoscopeView, nint: real -> int,
                         betaOf: real -> real): Selection
    requires s0.ret == 0 && CalcDefined(c, s0.tracks, hodo)
  {
    var s1 := if DefaultRuns(c) then DefaultStage(s0, c.sorting) else s0;
    var s2 := if c.selUsingScin == 1 then ScinStage(s1, ScinContextOf(c, hodo, nint)) else s1;
    if s2.ret == -1 then s2
    else if c.selUsingPrune == 1 then PruneStage(s2, betaOf, hodo.startTimeCenter)
    else s2
  }

  // ---------------------------------------------------------------------------
  // Properties of TrackCalc

  /**
   * TrackCalc returns -1 exactly when the list holds a NULL entry and the
   * scintillator or the prune strategy runs, and 0 otherwise; only the default
   * strategy with sorting reorders the list.
   */
  lemma TrackCalcReturnCode(c: Config, s0: Selection, hodo: HodoscopeView, nint: real -> int, betaOf: real -> real)
    requires s0.ret == 0 && CalcDefined(c, s0.tracks, hodo)
    ensures var r := TrackCalcSpec(c, s0, hodo, nint, betaOf);
            && (r.ret == 0 || r.ret == -1)
            && (r.ret == -1 <==> (c.selUsingScin == 1 || c.selUsingPrune == 1) &&
                                 exists j :: 0 <= j < |s0.tracks| && s0.tracks[j].None?)
            && (!(DefaultRuns(c) && c.sorting) ==> r.tracks == s0.tracks)
  {
    if c.selUsingScin == 1 && |s0.tracks| > 0 {
      ScinAbortsIffNull(s0.tracks, ScinContextOf(c, hodo, nint));
    }
  }

  /** With no tracks every active strategy leaves no golden track, and TrackCalc returns 0. */
  lemma NoTracksNoGolden(c: Config, s0: Selection, hodo: HodoscopeView, nint: real -> int, betaOf: real -> real)
    requires s0.ret == 0 && CalcDefined(c, s0.tracks, hodo) && s0.tracks == []
    requires DefaultRuns(c) || c.selUsingScin == 1 || c.selUsingPrune == 1
    ensures var r := TrackCalcSpec(c, s0, hodo, nint, betaOf);
            r.ret == 0 && r.golden == None && r.tracks == []
  {
  }

  /**
   * The default strategy with sorting: the list becomes a permutation of
   * itself in ascending chi2/ndof and the golden track, its first entry, has
   * the smallest chi2/ndof of all.
   */
  lemma DefaultGoldenIsBest(c: Config, s0: Selection, hodo: HodoscopeView, nint: real -> int, betaOf: real -> real)
    requires s0.ret == 0 && CalcDefined(c, s0.tracks, hodo)
    requires DefaultRuns(c) && c.sorting && |s0.tracks| > 0
    ensures var r := TrackCalcSpec(c, s0, hodo, nint, betaOf);
            && r.ret == 0 && r.golden == Some(0) && AllPresent(r.tracks) && |r.tracks| == |s0.tracks|
            && multiset(Values(r.tracks)) == multiset(Values(s0.tracks))
            && NonZeroDof(Values(r.tracks)) && SortedByChi2(Values(r.tracks))
            && forall i :: 0 <= i < |s0.tracks| ==> Chi2PerDof(r.tracks[0].value) <= Chi2PerDof(s0.tracks[i].value)
  {
    var ts := Values(s0.tracks);
    SortedFirstIsBest(ts);
    var r := TrackCalcSpec(c, s0, hodo, nint, betaOf);
    assert r.tracks == Present(SortByChi2(ts));
    forall i | 0 <= i < |s0.tracks|
      ensures Chi2PerDof(r.tracks[0].value) <= Chi2PerDof(s0.tracks[i].value)
    {
      assert r.tracks[0].value == SortByChi2(ts)[0];
      assert s0.tracks[i].value == ts[i];
    }
  }

  /** The default strategy without sorting keeps the order and makes the first track golden. */
  lemma UnsortedDefaultTakesFirst(c: Config, s0: Selection, hodo: HodoscopeView, nint: real -> int, betaOf: real -> real)
    requires s0.ret == 0 && CalcDefined(c, s0.tracks, hodo)
    requires DefaultRuns(c) && !c.sorting && |s0.tracks| > 0
    ensures var r := TrackCalcSpec(c, s0, hodo, nint, betaOf);
            r.ret == 0 && r.tracks == s0.tracks && r.golden == Some(0)
  {
  }

  /**
   * The scintillator strategy alone, on a list without NULL entries where
   * some track passes its windows: the golden track is fGoodTrack, an
   * admissible track with the lexicographically smallest (2Y mismatch, 2X
   * mismatch, chi2/ndof), the earliest among equals.
   */
  lemma ScinGoldenIsLexMin(c: Config, s0: Selection, hodo: HodoscopeView, nint: real -> int, betaOf: real -> real)
    requires s0.ret == 0 && CalcDefined(c, s0.tracks, hodo)
    requires c.selUsingScin == 1 && c.selUsingPrune != 1 && AllPresent(s0.tracks)
    requires Realistic(s0.tracks, ScinContextOf(c, hodo, nint))
    requires exists j :: 0 <= j < |s0.tracks| && Admissible(s0.tracks[j].value, c.scinCuts)
    ensures var r := TrackCalcSpec(c, s0, hodo, nint, betaOf);
            var s := s0.tracks;
            var ctx := ScinContextOf(c, hodo, nint);
            && r.ret == 0 && 0 <= r.goodTrack < |s| && r.golden == Some(r.goodTrack as nat)
            && Admissible(s[r.goodTrack].value, c.scinCuts) && r.chi2Min == Chi2PerDof(s[r.goodTrack].value)
            && forall j :: 0 <= j < |s| && Admissible(s[j].value, c.scinCuts) ==>
                 KeyLe(KeyAt(s, ctx, r.goodTrack), KeyAt(s, ctx, j)) &&
                 (j < r.goodTrack ==> KeyLess(KeyAt(s, ctx, r.goodTrack), KeyAt(s, ctx, j)))
  {
    ScinPicksLexMin(s0.tracks, ScinContextOf(c, hodo, nint));
  }

  /**
   * The prune strategy decides on its own: on a list without NULL entries,
   * whatever the scintillator strategy did before it, the golden track is the
   * one the prune selection picks under the clamped thresholds.
   */
  lemma PruneDecidesGolden(c: Config, s0: Selection, hodo: HodoscopeView, nint: real -> int, betaOf: real -> real)
    requires s0.ret == 0 && CalcDefined(c, s0.tracks, hodo)
    requires c.selUsingPrune == 1 && AllPresent(s0.tracks) && |s0.tracks| > 0
    ensures var r := TrackCalcSpec(c, s0, hodo, nint, betaOf);
            var cuts := PS.ClampCuts(s0.pruneCuts);
            var p := PS.PruneSelection(s0.tracks, PS.PruneEnv(cuts, betaOf, hodo.startTimeCenter));
            && r.ret == 0 && r.pruneCuts == cuts && PS.AtLeastFloors(r.pruneCuts)
            && p.PrunePicked? && r.goodTrack == p.good && r.chi2Min == p.chiMin && r.golden == Some(p.good)
            && p.good < |s0.tracks|
  {
    if c.selUsingScin == 1 {
      ScinAbortsIffNull(s0.tracks, ScinContextOf(c, hodo, nint));
    }
    var ts := Values(s0.tracks);
    PS.BestKeptIsMin(ts, PS.Pruned(ts, PS.PruneEnv(PS.ClampCuts(s0.pruneCuts), betaOf, hodo.startTimeCenter), PS.NumPasses).keep, |ts|);
  }

  /**
   * Whenever the scintillator or prune strategy runs on a non-empty list and
   * TrackCalc returns 0, the golden track is the one fGoodTrack names.
   */
  lemma GoldenFollowsGoodTrack(c: Config, s0: Selection, hodo: HodoscopeView, nint: real -> int, betaOf: real -> real)
    requires s0.ret == 0 && CalcDefined(c, s0.tracks, hodo)
    requires (c.selUsingScin == 1 || c.selUsingPrune == 1) && |s0.tracks| > 0
    ensures var r := TrackCalcSpec(c, s0, hodo, nint, betaOf);
            r.ret == 0 && r.goodTrack >= 0 ==> r.golden == Some(r.goodTrack as nat)
  {
  }

  // ---------------------------------------------------------------------------
  // The apparatus

  /** TClonesArray::Sort on the track list: the records in ascending chi2/ndof. */
  method SortTracksInPlace(a: array<Option<Track>>)
    requires AllPresent(a[..]) && NonZeroDof(Values(a[..]))
    modifies a
    ensures a[..] == Present(SortByChi2(Values(old(a[..]))))
  {
    var sorted := SortByChi2(Values(a[..]));
    for i := 0 to a.Length
      invariant forall j :: 0 <= j < i ==> a[j] == Some(sorted[j])
      invariant forall j :: i <= j < a.Length ==> a[j] == old(a[j])
    {
      a[i] := Some(sorted[i]);
    }
  }

  /**
   * The body of the FindVertices loop for one track: the focal-plane vector,
   * its rotation, the COSY sums, then SetTarget, SetDp and SetMomentum.
   */
  method ReconstructTrack(track: Track, cal: Calibration, kin: Kinematics, terms: seq<ReconTerm>)
    returns (u: Track)
    ensures u == Reconstruct(track, cal, kin, terms)
  {
    var hut := Rotate(FocalVector(track, cal), cal);
    var sum := CosySums(terms, hut);
    u := track.(tX := 0.0, tY := sum[1] * 100.0, tTheta := sum[0] + kin.phiOffset,
                tPhi := sum[2] + kin.thetaOffset, dp := sum[3] * 100.0 + kin.deltaOffset);
    u := u.(p := kin.pcentral * (1.0 + u.dp / 100.0));
  }

  class Spectrometer {
    /** fProperties, inherited from the generic spectrometer. */
    var properties: bv32
    /** fStatus, set to kInitError when the hodoscope is missing. */
    var status: Status
    /** Whether fHodo points at the hodoscope detector. */
    var hasHodo: bool
    /** fReconTerms and fNReconTerms. */
    var reconTerms: seq<ReconTerm>
    var nReconTerms: nat
    /** The focal-plane rotation coefficients. */
    var cal: Calibration
    /** fThetaOffset, fPhiOffset, fDeltaOffset and fPcentral. */
    var kin: Kinematics
    var selUsingScin: int
    var selUsingPrune: int
    var scinCuts: ScinCuts
    var nPlanes: int
    var geo: ScinGeometry
    var pruneCuts: PS.PruneCuts
    /** fNtracks, fGoodTrack, fChi2Min and fGoldenTrack (an index into fTracks). */
    var nTracks: nat
    var goodTrack: int
    var chi2Min: real
    var golden: Option<nat>

    ghost predicate Valid()
      reads this
    {
      nReconTerms == |reconTerms|
    }

    function GetTrSorting(): (r: bool)
      reads this
      ensures r == SortingOf(properties)
    {
      properties & SortTracks != 0
    }

    function Cfg(): Config
      reads this
    {
      Config(GetTrSorting(), selUsingScin, selUsingPrune, scinCuts, nPlanes, geo)
    }

    function Sel(tracks: seq<Option<Track>>): Selection
      reads this
    {
      Selection(0, tracks, golden, goodTrack, chi2Min, pruneCuts)
    }

    /** The constructor turns track sorting on over the inherited properties. */
    constructor (inherited: bv32)
      ensures Valid() && properties == WithSorting(inherited, true) && GetTrSorting()
      ensures !hasHodo && reconTerms == [] && golden == None && nTracks == 0
    {
      properties := inherited;
      status := OK;
      hasHodo := false;
      reconTerms := [];
      nReconTerms := 0;
      cal := ZeroCalibration;
      kin := Kinematics(0.0, 0.0, 0.0, 0.0);
      selUsingScin := 0;
      selUsingPrune := 0;
      scinCuts := ScinCuts(0.0, 0.0, 0.0, 0.0, 0.0, 0.0, 0.0);
      nPlanes := 0;
      geo := ScinGeometry(0.0, 0.0, 0.0, 0.0);
      pruneCuts := PS.PruneCuts(0.0, 0.0, 0.0, 0.0, 0.0, 0.0, 0.0, 0.0, 0.0);
      nTracks := 0;
      goodTrack := 0;
      chi2Min := 0.0;
      golden := None;
      new;
      var _ := SetTrSorting(true);
    }

    method SetTrSorting(enable: bool) returns (r: bool)
      modifies this`properties
      ensures r == enable && properties == WithSorting(old(properties), enable) && GetTrSorting() == enable
    {
      if enable {
        properties := properties | SortTracks;
      } else {
        properties := properties & !SortTracks;
      }
      r := enable;
    }

    /** Clear the matrix and zero the rotation coefficients. */
    method InitializeReconstruction()
      modifies this`reconTerms, this`nReconTerms, this`cal
      ensures Valid() && reconTerms == [] && cal == ZeroCalibration
    {
      nReconTerms := 0;
      reconTerms := [];
      cal := ZeroCalibration;
    }

    /** The fields LoadParmValues fills, with the central momentum corrected by its offset. */
    method TakeParameters(db: DbParams)
      modifies this`kin, this`selUsingScin, this`selUsingPrune, this`scinCuts, this`nPlanes, this`geo, this`pruneCuts
      ensures kin == Kinematics(db.thetaOffset, db.phiOffset, db.deltaOffset, CorrectedPcentral(db))
      ensures selUsingScin == db.selUsingScin && selUsingPrune == db.selUsingPrune
      ensures scinCuts == db.scinCuts && nPlanes == db.nPlanes && geo == db.geo && pruneCuts == db.pruneCuts
    {
      kin := Kinematics(db.thetaOffset, db.phiOffset, db.deltaOffset, db.pcentral);
      selUsingScin := db.selUsingScin;
      selUsingPrune := db.selUsingPrune;
      scinCuts := db.scinCuts;
      nPlanes := db.nPlanes;
      geo := db.geo;
      pruneCuts := db.pruneCuts;
      kin := kin.(pcentral := kin.pcentral * (1.0 + db.pcentralOffset / 100.0));
    }

    /**
     * ReadDatabase: without a hodoscope, fail and set the status; otherwise
     * reset the matrix, take the parameters and load the coefficient file
     * (None: it cannot be opened).
     */
    method ReadDatabase(hodoPresent: bool, db: DbParams, file: Option<seq<string>>,
                        parse: string -> ReconTerm) returns (st: Status)
      requires Valid()
      modifies this`status, this`hasHodo, this`reconTerms, this`nReconTerms, this`cal, this`kin,
               this`selUsingScin, this`selUsingPrune, this`scinCuts, this`nPlanes, this`geo, this`pruneCuts
      ensures Valid()
      ensures !hodoPresent ==>
                && st == InitError && status == InitError && hasHodo == old(hasHodo)
                && reconTerms == old(reconTerms) && cal == old(cal) && kin == old(kin)
                && selUsingScin == old(selUsingScin) && selUsingPrune == old(selUsingPrune)
                && scinCuts == old(scinCuts) && nPlanes == old(nPlanes) && geo == old(geo)
                && pruneCuts == old(pruneCuts)
      ensures hodoPresent ==>
                && hasHodo && status == old(status)
                && LoadResult(st, reconTerms) == LoadSpec(file, parse)
                && cal == ZeroCalibration
                && kin == Kinematics(db.thetaOffset, db.phiOffset, db.deltaOffset, CorrectedPcentral(db))
                && selUsingScin == db.selUsingScin && selUsingPrune == db.selUsingPrune
                && scinCuts == db.scinCuts && nPlanes == db.nPlanes && geo == db.geo
                && pruneCuts == db.pruneCuts
    {
      if !hodoPresent {
        status := InitError;
        return InitError;
      }
      hasHodo := true;
      InitializeReconstruction();
      TakeParameters(db);
      var loaded := ReadReconCoefficients(file, parse);
      reconTerms := loaded.terms;
      nReconTerms := |loaded.terms|;
      st := loaded.status;
    }

    /**
     * FindVertices: fNtracks from the list, then the target quantities of
     * every track from the rotated focal-plane vector and the COSY sums.
     */
    method FindVertices(tracks: array<Option<Track>>) returns (r: int)
      requires Valid() && AllPresent(tracks[..])
      modifies tracks, this`nTracks
      ensures r == 0 && nTracks == tracks.Length
      ensures tracks[..] == Present(ReconstructAll(Values(old(tracks[..])), cal, kin, reconTerms))
    {
      nTracks := tracks.Length;
      ghost var before := Values(tracks[..]);
      for it := 0 to tracks.Length
        modifies tracks
        invariant forall j :: 0 <= j < it ==> tracks[j] == Some(Reconstruct(before[j], cal, kin, reconTerms))
        invariant forall j :: it <= j < tracks.Length ==> tracks[j] == Some(before[j])
      {
        var track := ReconstructTrack(tracks[it].value, cal, kin, reconTerms[..nReconTerms]);
        assert reconTerms[..nReconTerms] == reconTerms;
        tracks[it] := Some(track);
      }
      r := 0;
    }

    /** The default strategy: sort when enabled, then take the first track. */
    method DefaultStrategy(tracks: array<Option<Track>>)
      requires tracks.Length == nTracks && AllPresent(tracks[..])
      requires GetTrSorting() ==> NonZeroDof(Values(tracks[..]))
      modifies tracks, this`golden
      ensures Sel(tracks[..]) == DefaultStage(old(Sel(tracks[..])), GetTrSorting())
    {
      if GetTrSorting() {
        SortTracksInPlace(tracks);
      }
      if nTracks > 0 {
        golden := Some(0);
      } else {
        golden := None;
      }
    }

    /** The scintillator strategy; -1 when it meets a NULL entry, else 0. */
    method ScinStrategy(tracks: array<Option<Track>>, hodo: HodoscopeView, nint: real -> int) returns (r: int)
      requires tracks.Length == nTracks && ValidView(hodo, nPlanes) && DofDefined(tracks[..], scinCuts)
      requires PadsFitScans(hodo, nPlanes, nTracks)
      modifies this`golden, this`goodTrack, this`chi2Min
      ensures var s := ScinStage(old(Sel(tracks[..])), ScinContextOf(Cfg(), hodo, nint));
              r == s.ret && Sel(tracks[..]) == s.(ret := 0)
    {
      r := 0;
      if nTracks > 0 {
        var o := ScinSelect(tracks, ScinContext(scinCuts, hodo, nPlanes, geo, nint));
        goodTrack := o.good;
        chi2Min := o.chiMin;
        if o.good >= 0 {
          golden := Some(o.good as nat);
        }
        if o.aborted {
          return -1;
        }
      } else {
        golden := None;
      }
    }

    /** The prune strategy; -1 when it meets a NULL entry, else 0. */
    method PruneStrategy(tracks: array<Option<Track>>, startTime: real, betaOf: real -> real) returns (r: int)
      requires tracks.Length == nTracks && PS.PresentDofNonZero(tracks[..])
      modifies this`golden, this`goodTrack, this`chi2Min, this`pruneCuts
      ensures var s := PruneStage(old(Sel(tracks[..])), betaOf, startTime);
              r == s.ret && Sel(tracks[..]) == s.(ret := 0)
    {
      r := 0;
      pruneCuts := PS.ClampCuts(pruneCuts);
      if nTracks > 0 {
        chi2Min := PS.NoChi;
        goodTrack := 0;
        var o := PS.PruneSelect(tracks, PS.PruneEnv(pruneCuts, betaOf, startTime));
        if o.PruneAborted? {
          return -1;
        }
        goodTrack := o.good;
        chi2Min := o.chiMin;
        golden := Some(o.good);
      } else {
        golden := None;
      }
    }

    /**
     * TrackCalc: the golden-track selection over fTracks (`tracks`), given
     * this event's hodoscope hits, TMath::Nint and the predicted beta.
     */
    method TrackCalc(tracks: array<Option<Track>>, hodo: HodoscopeView, nint: real -> int,
                     betaOf: real -> real) returns (r: int)
      requires hasHodo && tracks.Length == nTracks
      requires CalcDefined(Cfg(), tracks[..], hodo)
      requires selUsingScin == 1 ==> PadsFitScans(hodo, nPlanes, nTracks)
      modifies tracks, this`golden, this`goodTrack, this`chi2Min, this`pruneCuts
      ensures var s := TrackCalcSpec(old(Cfg()), old(Sel(tracks[..])), hodo, nint, betaOf);
              r == s.ret && Sel(tracks[..]) == s.(ret := 0)
    {
      if selUsingScin == 0 && selUsingPrune == 0 {
        DefaultStrategy(tracks);
      }
      if selUsingScin == 1 {
        r := ScinStrategy(tracks, hodo, nint);
        if r == -1 {
          return;
        }
      }
      if selUsingPrune == 1 {
        r := PruneStrategy(tracks, hodo.startTimeCenter, betaOf);
        if r == -1 {
          return;
        }
      }
      r := 0;
    }
  }
}
