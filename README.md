# Hall C spectrometer: reconstruction and golden-track selection

This project models the core of `THcHallCSpectrometer`, the Hall C spectrometer
apparatus of the hcana analyzer. It covers these parts:

- **The track-sorting property.** `SetTrSorting` / `GetTrSorting` set, clear and
  read the kSortTracks bit of `fProperties`.
- **ReadDatabase.** It finds the hodoscope, resets the reconstruction matrix
  (`InitializeReconstruction`) and takes the database parameters. It then corrects
  the central momentum and loads the reconstruction-coefficient ("COSY matrix")
  file. The loader skips the `!` header, skips the rotation section up to the
  first ` ---` marker, then pushes one term per line up to the next marker.
- **FindVertices.** For every track it computes these in order:
  - the focal-plane vector `hut`;
  - its rotation `hut_rot`;
  - the four COSY sums;
  - the target quantities, the momentum deviation and the momentum.
- **TrackCalc.** It chooses the golden track by one of three strategies:
  - **Default** (both flags 0): sort by chi2/ndof when sorting is enabled, then
    take the first track.
  - **Scintillator** (`sel_using_scin == 1`): among the tracks inside the dE/dx,
    beta and energy windows, the smallest (2Y paddle mismatch, 2X paddle mismatch,
    chi2/ndof), with a fallback to the smallest chi2/ndof.
  - **Prune** (`sel_using_prune == 1`): eleven cuts, each applied only when some
    still-kept track passes it, then the kept track with the smallest chi2/ndof.

The project has seven modules:

- **`Wrappers`:** `Option` and the status codes.
- **`Tracks`:** the track record, chi2/ndof, and the sort that
  `TClonesArray::Sort` performs.
- **`ReconCoefficients`:** the coefficient file and its loader.
- **`TransportMap`:** the focal-plane vector, the rotation and the COSY
  polynomial.
- **`Hodoscope`:** paddle hit masks, expected paddles and mismatches.
- **`ScinSelection`** and **`PruneSelection`:** the two non-default strategies.
- **`HallCSpectrometer`:** the apparatus as a class whose methods update its
  fields, plus `TrackCalcSpec`, the function that specifies `TrackCalc`.

Every loop of the source is a method proved against a specification function.
Each of those methods is listed below. The track list (`fTracks`) is an
`array<Option<Track>>` where `None` is a NULL entry. The golden track is an
index into that array.

Some behaviour follows the code where the documented design says otherwise:

- **The line after the marker.** The code reads the line right after the first
  ` ---` marker as the first term line, so it is parsed and not skipped.
- **The mismatch.** The paddle mismatch is a minimum over only the first six
  fired paddles of a plane, not over all of them (`Hodoscope.SeventhHitIgnored`).
- **The strategy flags.** The flags are integers. A strategy runs only when its
  flag is exactly 1, so a flag of 2 disables both the scintillator strategy and
  the default one.
- **Order of the strategies.** When both flags are 1, the prune strategy runs
  after the scintillator strategy and overrides its choice. The exception is when
  the scintillator strategy returned -1.
- **A prune abort.** A NULL entry aborts the prune strategy with -1. By then it
  has already set `fGoodTrack` to 0 and `fChi2Min` to 1e10, and the golden track
  is left as it was.
- **A truncated file.** A coefficient file that ends before the closing marker
  fails with kInitError, but the terms read so far stay loaded.

## Model

| member | source | states |
|---|---|---|
| HallCSpectrometer.WithSorting | src/THcHallCSpectrometer.cxx:129-137 | setting or clearing kSortTracks makes the sorting flag equal to the request and leaves every other property bit unchanged |
| HallCSpectrometer.Spectrometer.SetTrSorting | src/THcHallCSpectrometer.cxx:129-137 | returns its argument; fProperties becomes WithSorting of the old value, so GetTrSorting afterwards answers the argument |
| HallCSpectrometer.Spectrometer.GetTrSorting | src/THcHallCSpectrometer.cxx:140-143 | true exactly when the kSortTracks bit of fProperties is set |
| HallCSpectrometer.Spectrometer.constructor | src/THcHallCSpectrometer.cxx:92-101 | a new spectrometer has sorting enabled over the inherited properties, no hodoscope, no matrix terms and no golden track |
| HallCSpectrometer.Spectrometer.InitializeReconstruction | src/THcHallCSpectrometer.cxx:146-157 | the term list is empty, its count is 0, and every rotation and offset constant is zero |
| HallCSpectrometer.CorrectedPcentral | src/THcHallCSpectrometer.cxx:256 | the central momentum times 1 + pcentral_offset/100 |
| HallCSpectrometer.Spectrometer.TakeParameters | src/THcHallCSpectrometer.cxx:200-256 | the offsets, strategy flags, scintillator cuts and geometry, plane count and prune thresholds are the database values; the central momentum is multiplied by 1 + pcentral_offset/100 |
| HallCSpectrometer.Spectrometer.ReadDatabase | src/THcHallCSpectrometer.cxx:159-317 | without a hodoscope: kInitError, fStatus set, nothing else changed; otherwise: the matrix is reset and reloaded, status and terms are exactly what the loader specification gives, and the parameters are taken with the momentum corrected |
| ReconCoefficients.LoadSpec | src/THcHallCSpectrometer.cxx:266-317 | the loader's result: kInitError with no terms when the file does not open or has no marker after the header; otherwise the terms parsed from the lines after the first marker up to the next one, with kOK only when that closing marker exists |
| ReconCoefficients.FirstNonComment | src/THcHallCSpectrometer.cxx:273-277 | the first line at or after i that does not start with '!', with every line skipped a comment |
| ReconCoefficients.NextMarker | src/THcHallCSpectrometer.cxx:281-291 | the first line at or after i whose first four characters are " ---", with no marker skipped |
| ReconCoefficients.SkipHeader | src/THcHallCSpectrometer.cxx:273-277 | the header loop stops on the first non-comment line, or at end of file with good false |
| ReconCoefficients.SkipToMarker | src/THcHallCSpectrometer.cxx:281-291 | the rotation-section loop stops on the next marker at or after the current line, or at end of file |
| ReconCoefficients.ReadTerms | src/THcHallCSpectrometer.cxx:292-312 | pushes one parsed term for each line strictly between the marker and the next marker; good is true exactly when that closing marker exists |
| ReconCoefficients.ReadReconCoefficients | src/THcHallCSpectrometer.cxx:266-317 | the whole loader returns exactly the status and the terms of its specification LoadSpec |
| ReconCoefficients.CommentsDoNotHideMarkers | src/THcHallCSpectrometer.cxx:273-291 | skipping the comment header first does not change which marker the rotation-section loop finds |
| ReconCoefficients.LoadSucceedsIff | src/THcHallCSpectrometer.cxx:266-317 | the load returns kOK if and only if the file opens and holds two marker lines |
| ReconCoefficients.LoadedTermsBetweenMarkers | src/THcHallCSpectrometer.cxx:292-312 | after a successful load the terms are exactly the parses, in order, of the lines between the first two markers |
| ReconCoefficients.LoadWellFormedFile | src/THcHallCSpectrometer.cxx:266-317 | a file of marker-free preamble, marker, marker-free body, marker loads with kOK and one term per body line |
| ReconCoefficients.TruncatedFileKeepsPartialTerms | src/THcHallCSpectrometer.cxx:299-316 | a file that ends before the closing marker fails with kInitError, but keeps one parsed term per body line |
| TransportMap.FocalVector | src/THcHallCSpectrometer.cxx:337-344 | hut: the focal-plane x and y in meters, each corrected by z_true_focus times its slope and by its detector offset, the two slopes plus their angle offsets, and minus the beam y over 100 (0, since there is no raster input) |
| TransportMap.Rotate | src/THcHallCSpectrometer.cxx:349-353 | hut_rot: theta gains x times the x slope correction and phi gains y times the y correction; the other three entries are copied |
| TransportMap.CosySum | src/THcHallCSpectrometer.cxx:356-370 | sum[k]: over the terms in order, Coeff[k] times the product of hut_rot[j] raised to Exp[j] |
| TransportMap.Reconstruct | src/THcHallCSpectrometer.cxx:372-381 | the target x is 0, y = 100 sum[1], theta = sum[0] + phi offset, phi = sum[2] + theta offset, dp = 100 sum[3] + delta offset, p = pcentral(1 + dp/100) |
| TransportMap.CosySums | src/THcHallCSpectrometer.cxx:355-370 | the four sums are, for each output k, the sum over the terms of Coeff[k] times the product of hut_rot[j]^Exp[j] |
| TransportMap.CosySumAppend | src/THcHallCSpectrometer.cxx:360-370 | the sum over a concatenated term list is the sum of the two partial sums |
| TransportMap.CosySumBlocksCommute | src/THcHallCSpectrometer.cxx:360-370 | swapping two blocks of terms leaves every sum unchanged |
| TransportMap.ConstantTerm | src/THcHallCSpectrometer.cxx:360-370 | a term with all exponents 0 contributes exactly its coefficient |
| TransportMap.LinearTerm | src/THcHallCSpectrometer.cxx:360-370 | a term with exponent 1 on one input and 0 elsewhere contributes its coefficient times that input |
| TransportMap.RotationTouchesOnlyAngles | src/THcHallCSpectrometer.cxx:349-353 | the rotation keeps both positions and the raster entry, and with zero slopes it is the identity |
| TransportMap.ZeroCalibrationVector | src/THcHallCSpectrometer.cxx:337-353 | with the constants InitializeReconstruction sets, hut is (x/100, theta, y/100, phi, 0) and the rotation changes nothing |
| TransportMap.ReconstructProperties | src/THcHallCSpectrometer.cxx:377-381 | reconstruction changes only the target quantities, dp and p; p = pcentral(1 + dp/100); with no terms the target values are the offsets |
| TransportMap.ReconstructDependsOnlyOnFocalPlane | src/THcHallCSpectrometer.cxx:337-381 | two tracks with the same focal-plane x, theta, y and phi get the same target quantities, dp and p |
| TransportMap.WorkedExample | src/THcHallCSpectrometer.cxx:355-370 | a concrete two-term matrix evaluated at a concrete vector gives the four sums 2, 27, 0 and 13 |
| HallCSpectrometer.ReconstructTrack | src/THcHallCSpectrometer.cxx:332-381 | the body of the FindVertices loop yields exactly the reconstructed track |
| HallCSpectrometer.ReconstructAll | src/THcHallCSpectrometer.cxx:331-380 | the list of the same length whose entry i is track i reconstructed |
| HallCSpectrometer.ReconstructAllKeepsFocalPlane | src/THcHallCSpectrometer.cxx:331-380 | every reconstructed track keeps its focal-plane coordinates and fit quality, has tX = 0 and p = pcentral(1 + dp/100) |
| HallCSpectrometer.Spectrometer.FindVertices | src/THcHallCSpectrometer.cxx:321-417 | returns 0, sets fNtracks to the list length, and replaces every track by its reconstruction, in place and in order |
| Tracks.Values | src/THcHallCSpectrometer.cxx:655-663 | the track records of a list without NULL entries, entry by entry |
| Tracks.Present | src/THcHallCSpectrometer.cxx:431-432 | wrapping records as list entries gives a list without NULL entries whose records are those given |
| Tracks.Insert | src/THcHallCSpectrometer.cxx:431-432 | inserting a track adds exactly that track to the multiset of records |
| Tracks.InsertSorted | src/THcHallCSpectrometer.cxx:431-432 | inserting into a list sorted by chi2/ndof keeps it sorted |
| Tracks.SortByChi2 | src/THcHallCSpectrometer.cxx:431-432 | the result is a permutation of the input, sorted in ascending chi2/ndof |
| Tracks.SortedFirstIsBest | src/THcHallCSpectrometer.cxx:431-448 | after sorting, the first track has a chi2/ndof no larger than any track of the input |
| HallCSpectrometer.SortTracksInPlace | src/THcHallCSpectrometer.cxx:431-432 | the array holds the sorted records, in place |
| Hodoscope.Fill | src/THcHallCSpectrometer.cxx:483-488 | a mask of the given length with every entry the given value |
| Hodoscope.ResetHits | src/THcHallCSpectrometer.cxx:483-488 | every entry of a hit array becomes -1 |
| Hodoscope.MarkedMeaning | src/THcHallCSpectrometer.cxx:490-506 | after marking, paddle j holds 0 exactly when one of the plane's hits reports pad j, and -1 otherwise |
| Hodoscope.MarkPlane | src/THcHallCSpectrometer.cxx:491-505 | the hit loop of plane ip advances the raw index by its hit count and marks the 2X array for plane 2 and the 2Y array for plane 3, leaving the other unchanged |
| Hodoscope.MarkHits | src/THcHallCSpectrometer.cxx:490-506 | over all planes the raw index advances by the total hit count and each array holds its plane's mask |
| Hodoscope.Clamp | src/THcHallCSpectrometer.cxx:511 | Max(Min(i, n), 1) lies in 1..n, equals i inside that range, and saturates at either end |
| Hodoscope.ExpectedPaddleY | src/THcHallCSpectrometer.cxx:509-511 | fHitCnt4 from the track's y projected to the 2Y plane, clamped to 1..NPaddles(3); it lies in that range, and is 1 on a plane without paddles |
| Hodoscope.ExpectedPaddleX | src/THcHallCSpectrometer.cxx:540-542 | fHitCnt3 from the track's x projected to the 2X plane, with the reverse sign, clamped to 1..NPaddles(2); it lies in that range, and is 1 on a plane without paddles |
| Hodoscope.PadsIn | src/THcHallCSpectrometer.cxx:491-505 | every hit of a window reports a paddle that indexes the hit array |
| Hodoscope.ScanPadsFit | src/THcHallCSpectrometer.cxx:490-506 | in one pass, the pads of plane 2's hits fit the 2X array and those of plane 3's hits fit the 2Y array; pads of other planes are not used as indices |
| Hodoscope.HitPaddlesMeaning | src/THcHallCSpectrometer.cxx:520-521 | the list of hit paddles holds exactly the mask's zero entries, each once, ascending |
| Hodoscope.MinDistIsMinimum | src/THcHallCSpectrometer.cxx:522-530 | the minimum distance is no larger than the distance to any listed paddle and equals one of them |
| Hodoscope.ZapStep | src/THcHallCSpectrometer.cxx:523-530 | one more hit paddle sets the running minimum when it is the first, may lower it for the second to sixth, and leaves it alone afterwards |
| Hodoscope.PlaneMismatch | src/THcHallCSpectrometer.cxx:516-534 | the paddle loop of one plane returns the first-six-hits mismatch of the hit array |
| Hodoscope.MismatchIsMinOfFirstSix | src/THcHallCSpectrometer.cxx:516-534 | the mismatch is at most the distance to each of the first six hit paddles and equals one of those distances |
| Hodoscope.MismatchExactForFewHits | src/THcHallCSpectrometer.cxx:516-534 | with at most six hit paddles, the mismatch is at most the distance to every fired paddle |
| Hodoscope.SeventhHitIgnored | src/THcHallCSpectrometer.cxx:523-530 | with paddles 1..7 all fired and the track pointing at paddle 7, the mismatch is 1 although a paddle at distance 0 fired |
| Hodoscope.MismatchBelowPaddleCount | src/THcHallCSpectrometer.cxx:516-534 | for an expected paddle inside the plane, the mismatch is below the paddle count, hence below the 100 sentinel on real planes |
| ScinSelection.TrackKey | src/THcHallCSpectrometer.cxx:508-570 | the key of an admissible track: its 2Y and 2X mismatches (both 0 in a one-track event) read from the hit masks of its own pass, and its chi2/ndof |
| ScinSelection.Compare | src/THcHallCSpectrometer.cxx:572-592 | the nested comparison never moves the raw-hit cursor, and either keeps the chosen track or takes track i |
| ScinSelection.ScinStep | src/THcHallCSpectrometer.cxx:467-595 | one track of the scan: an admissible track advances the raw cursor by a full pass and is compared; any other track changes nothing; the choice stays or becomes this track |
| ScinSelection.FallbackPrefix | src/THcHallCSpectrometer.cxx:599-620 | the fallback choice is -1 or an earlier track above the dof minimum |
| ScinSelection.CompareIsLexicographic | src/THcHallCSpectrometer.cxx:572-590 | the nested comparison takes a track exactly when its (2Y, 2X, chi2/ndof) key is lexicographically smaller than the running minima, and otherwise changes nothing |
| ScinSelection.ScanTrack | src/THcHallCSpectrometer.cxx:468-592 | one iteration of the track loop yields the step of the specification: inadmissible tracks change nothing, admissible ones consume their raw hits and are compared by key |
| ScinSelection.ScinSelect | src/THcHallCSpectrometer.cxx:456-627 | the strategy returns exactly the outcome of its specification: abort flag, fGoodTrack and fChi2Min |
| ScinSelection.ScanAbortsIffNull | src/THcHallCSpectrometer.cxx:467-470 | the scan over the first k entries aborts exactly when one of them is NULL |
| ScinSelection.ScinAbortsIffNull | src/THcHallCSpectrometer.cxx:467-470 | the strategy returns -1 exactly when the list holds a NULL entry, keeping the fGoodTrack and fChi2Min reached before it |
| ScinSelection.RawIndexClosedForm | src/THcHallCSpectrometer.cxx:466-492 | the raw-hit cursor after k entries is the number of admissible tracks before it times the hits per scan, minus 1: every admissible track rereads the raw hits from where the previous one stopped |
| ScinSelection.KeyBelowSentinels | src/THcHallCSpectrometer.cxx:463-464 | on planes of at most 101 paddles, every admissible track's key is below the start values (100, 100, 1e10) |
| ScinSelection.BestSoFarStep | src/THcHallCSpectrometer.cxx:572-590 | one comparison keeps the invariant: the chosen track has the smallest key so far and is the earliest among equals |
| ScinSelection.ScanKeepsInv | src/THcHallCSpectrometer.cxx:467-595 | after k entries the scan has chosen the earliest admissible track with the smallest key, or none when no track was admissible |
| ScinSelection.ScinPicksLexMin | src/THcHallCSpectrometer.cxx:456-598 | when some track is admissible, fGoodTrack is an admissible track with the lexicographically smallest (2Y, 2X, chi2/ndof) key, earliest among equals, and fChi2Min is its chi2/ndof |
| ScinSelection.FallbackKeepsInv | src/THcHallCSpectrometer.cxx:599-620 | the fallback loop keeps the first track with the smallest chi2/ndof below 1e10 among those above the dof minimum |
| ScinSelection.NoAdmissibleKeepsStart | src/THcHallCSpectrometer.cxx:467-595 | with no admissible track the scan leaves fGoodTrack at -1 |
| ScinSelection.ScinFallsBackToMinChi | src/THcHallCSpectrometer.cxx:599-620 | with no admissible track the choice is the earliest track with the smallest chi2/ndof above the dof minimum, or -1 when none is below 1e10 |
| PruneSelection.Passes | src/THcHallCSpectrometer.cxx:665-847 | the eleven prune tests in order: x' < xp, y' < yp, y target < ytar, delta < delta cut (all in absolute value), |beta - predicted beta| < beta cut, ndof >= df, PMT hits >= npmt, beta chi2 inside (0.01, chibeta), focal-plane time within the cut of the start time, plane 2Y hit, plane 2X hit |
| PruneSelection.ApplyPass | src/THcHallCSpectrometer.cxx:665-680 | a cut that some kept track passes drops every track that fails it and charges it the cut's weight; a cut no kept track passes changes nothing |
| PruneSelection.BestKept | src/THcHallCSpectrometer.cxx:849-859 | the final loop: the earliest kept track with the smallest chi2/ndof below 1e10, or 0 with 1e10 when none is below |
| PruneSelection.ClampCuts | src/THcHallCSpectrometer.cxx:636-644 | every threshold is raised to at least its floor, and thresholds already at their floors are unchanged |
| PruneSelection.GoodCountPositive | src/THcHallCSpectrometer.cxx:666-671 | fNGood is positive exactly when some still-kept track passes the cut |
| PruneSelection.ApplyPassInPlace | src/THcHallCSpectrometer.cxx:665-849 | one cut, in place, leaves keep and reject as the pass specification gives |
| PruneSelection.PruneSelect | src/THcHallCSpectrometer.cxx:649-866 | the strategy returns exactly the outcome of its specification: abort on a NULL entry, otherwise fGoodTrack and fChi2Min |
| PruneSelection.PickBestKept | src/THcHallCSpectrometer.cxx:850-859 | the final loop yields the earliest kept track with the smallest chi2/ndof below 1e10, else 0 |
| PruneSelection.KeptIffPassedApplied | src/THcHallCSpectrometer.cxx:665-849 | a track is kept after k cuts exactly when it passes every one of them that took effect |
| PruneSelection.KeepShrinks | src/THcHallCSpectrometer.cxx:665-849 | a track dropped by a cut is never kept again |
| PruneSelection.SomeTrackSurvives | src/THcHallCSpectrometer.cxx:665-849 | in a non-empty list at least one track is always kept |
| PruneSelection.LoneSurvivorStays | src/THcHallCSpectrometer.cxx:665-849 | once a single track is kept, it stays the only kept track to the end |
| PruneSelection.RejectRecordsFailures | src/THcHallCSpectrometer.cxx:672-845 | a track's reject code is the sum of the weights of the cuts that took effect and that it failed, whether or not it was still kept |
| PruneSelection.DecodeCode | src/THcHallCSpectrometer.cxx:672-845 | the weights 1, 2, 10, 20, 100, 200, 100000, 1000, 2000, 10000, 20000 make the code decodable: each failed-cut flag can be read back from the code's decimal digits |
| PruneSelection.RejectDecodes | src/THcHallCSpectrometer.cxx:672-845 | a track's final reject code records exactly which applied cuts it failed |
| PruneSelection.BestKeptIsMin | src/THcHallCSpectrometer.cxx:850-859 | the final loop picks a kept track with the smallest chi2/ndof below 1e10, earliest among equals, or leaves 0 with 1e10 when none is below |
| PruneSelection.PruneChoosesBestSurvivor | src/THcHallCSpectrometer.cxx:649-866 | when some kept track has chi2/ndof below 1e10, the strategy picks the earliest kept track with the smallest chi2/ndof |
| HallCSpectrometer.DefaultStage | src/THcHallCSpectrometer.cxx:429-454 | the default strategy keeps the list length; it sorts when sorting is on and makes entry 0 golden, or NULL without tracks |
| HallCSpectrometer.ScinStage | src/THcHallCSpectrometer.cxx:456-627 | the scintillator strategy never reorders the list or touches the prune thresholds, and either keeps the return code or makes it -1 |
| HallCSpectrometer.PruneStage | src/THcHallCSpectrometer.cxx:634-873 | the prune strategy clamps the thresholds even without tracks, never reorders the list, and either keeps the return code or makes it -1 |
| HallCSpectrometer.TrackCalcSpec | src/THcHallCSpectrometer.cxx:420-882 | the order of the strategies: default when both flags are 0, scintillator when its flag is 1, then prune when its flag is 1 unless the scintillator strategy returned -1 |
| HallCSpectrometer.Spectrometer.DefaultStrategy | src/THcHallCSpectrometer.cxx:429-454 | the list is sorted in place when sorting is on, and the golden track is entry 0, or NULL without tracks |
| HallCSpectrometer.Spectrometer.ScinStrategy | src/THcHallCSpectrometer.cxx:456-627 | fGoodTrack, fChi2Min, the golden track and the return code are as the scintillator stage gives |
| HallCSpectrometer.Spectrometer.PruneStrategy | src/THcHallCSpectrometer.cxx:634-873 | the thresholds are clamped; fGoodTrack, fChi2Min, the golden track and the return code are as the prune stage gives |
| HallCSpectrometer.Spectrometer.TrackCalc | src/THcHallCSpectrometer.cxx:420-882 | the return code, the track list, the golden track, fGoodTrack, fChi2Min and the prune thresholds are exactly those TrackCalcSpec gives for the strategy flags |
| HallCSpectrometer.TrackCalcReturnCode | src/THcHallCSpectrometer.cxx:420-882 | TrackCalc returns -1 exactly when a NULL entry is met by the scintillator or prune strategy, and 0 otherwise; only the sorted default strategy reorders the list |
| HallCSpectrometer.NoTracksNoGolden | src/THcHallCSpectrometer.cxx:436-453 | with no tracks, every strategy that runs leaves the golden track NULL, and TrackCalc returns 0 |
| HallCSpectrometer.DefaultGoldenIsBest | src/THcHallCSpectrometer.cxx:429-454 | with sorting, the list becomes a sorted permutation of itself and the golden track has the smallest chi2/ndof |
| HallCSpectrometer.UnsortedDefaultTakesFirst | src/THcHallCSpectrometer.cxx:429-454 | without sorting, the list is untouched and its first entry is golden |
| HallCSpectrometer.ScinGoldenIsLexMin | src/THcHallCSpectrometer.cxx:456-598 | the scintillator strategy alone makes golden the track fGoodTrack names, the admissible track with the smallest (2Y, 2X, chi2/ndof) key |
| HallCSpectrometer.PruneDecidesGolden | src/THcHallCSpectrometer.cxx:634-866 | when the prune strategy runs on a list without NULL entries, it decides fGoodTrack, fChi2Min and the golden track under the clamped thresholds, whatever the scintillator strategy chose |
| HallCSpectrometer.GoldenFollowsGoodTrack | src/THcHallCSpectrometer.cxx:584-614 | whenever a non-default strategy runs on a non-empty list and TrackCalc returns 0, the golden track is the one fGoodTrack names, if it names one |

## Left out

- DefineVariables and the global-variable registration: bookkeeping for the analyzer's output, with no logic to prove.
- LoadParmValues and the parameter store. The values it delivers are an input (`DbParams`). Missing optional keys and the file-name lookup are not modelled.
- Console output (`cout`, `Error`): no effect on state.
- `fTheta_lab`, `SetCentralAngles` and `fPointingOffset`: they belong to the generic spectrometer base class, which is not part of this model.
- `fPartMass` and the square root in the predicted beta. The predicted velocity p / sqrt(p^2 + m^2) is the parameter `betaOf`.
- `TMath::Nint` is the parameter `nint`, and the `sscanf` of a term line is the parameter `parse`. Floating-point arithmetic is modelled over `real`, with no rounding, NaN or infinity.
- Opening and reading the coefficient file. The file is its list of lines, and `None` stands for a file that cannot be opened. An unterminated last line is treated as end of file, like the stream's end-of-file bit.
- Memory management: the arrays TrackCalc allocates, their leaks on the early `return -1`, and the deletes at the end of the prune strategy.
- TrackTimes is a stub that returns 0, and so is modelled as 0.
- `kSortTracks` is defined in the generic spectrometer header, which is not part of this model. It is modelled as bit 0 of `fProperties`.
- Tracks.SortByChi2: `TClonesArray::Sort` is modelled as an insertion sort. Only sortedness and permutation carry over; the order of tracks with equal chi2/ndof is not that of ROOT's sort.
- Division by zero: a real quotient by zero is undefined here. Every strategy requires `ndof != 0` for the tracks whose chi2/ndof it forms, where the source would produce an infinity or a NaN. The scintillator strategy also requires non-zero plane spacings for planes 2 and 3 (`Hodoscope.ValidView`), because the expected paddles divide by them.
- ScinSelection.ScinSelect, HallCSpectrometer.Spectrometer.ScinStrategy and HallCSpectrometer.Spectrometer.TrackCalc require `PadsFitScans`: in each of the first nTracks passes over the raw hits, the pads of plane 2's hits are below NPaddles(2) and those of plane 3's hits below NPaddles(3). The source writes f2XHits and f2YHits at those pads unchecked. Only admissible tracks start a pass, so the requirement may cover a few more passes than an event reads. The specification functions need nothing: a pad outside the mask marks nothing there, and every lemma holds for all events.
- Copying the golden track into the generic spectrometer's track record (`fTrkIfo = *fGoldenTrack; fTrk = fGoldenTrack;`, at lines 450-451, 590-591, 615-616 and 862-863 of src/THcHallCSpectrometer.cxx): those fields belong to the generic spectrometer base class, which is not part of this model. The golden track is modelled as its index.
- HallCSpectrometer.Spectrometer.TrackCalc requires no NULL entry when the default strategy runs, although the source dereferences only entry 0 when sorting is off.
- ScinSelection.ScinPicksLexMin assumes `Realistic`: both matching planes have at most 101 paddles, and every admissible track has chi2/ndof below 1e10. Otherwise the 100 and 1e10 start values could beat a real track, and the choice is not the lexicographic minimum.
- PruneSelection.PruneChoosesBestSurvivor covers the case where some kept track has chi2/ndof below 1e10. `PruneSelection.BestKeptIsMin` states the other case: fGoodTrack stays 0.
- Statistics of rejected tracks: the reject codes are modelled and decoded, but nothing in the source reads them after the prune strategy.
