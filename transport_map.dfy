/**
 * Target reconstruction: the focal-plane vector, the "rotation" correction and
 * the COSY transport polynomial, evaluated over `real`.
 */
module TransportMap {
  import opened ReconCoefficients
  import opened Tracks

  /** The five focal-plane inputs hut[0..4]. */
  type Vec5 = s: seq<real> | |s| == 5 witness [0.0, 0.0, 0.0, 0.0, 0.0]

  /** Focal-plane calibration (angle slopes and offsets, detector offsets, true-focus z). */
  datatype Calibration = Calibration(
    angSlopeX: real, angSlopeY: real, angOffsetX: real, angOffsetY: real,
    detOffsetX: real, detOffsetY: real, zTrueFocus: real)

  /** The calibration after InitializeReconstruction: every constant zero. */
  const ZeroCalibration := Calibration(0.0, 0.0, 0.0, 0.0, 0.0, 0.0, 0.0)

  /** Target offsets and the central momentum. */
  datatype Kinematics = Kinematics(thetaOffset: real, phiOffset: real, deltaOffset: real, pcentral: real)

  /** The beam y position from the fast raster; there is no raster input, so it is 0. */
  const BeamY: real := 0.0

  /** hut[]: the meter-scaled, focus-corrected focal-plane vector. */
  function FocalVector(t: Track, cal: Calibration): Vec5 {
    [ t.x / 100.0 + cal.zTrueFocus * t.theta + cal.detOffsetX,
      t.theta + cal.angOffsetX,
      t.y / 100.0 + cal.zTrueFocus * t.phi + cal.detOffsetY,
      t.phi + cal.angOffsetY,
      -BeamY / 100.0 ]
  }

  /** hut_rot[]: each angle gains position times slope. */
  function Rotate(h: Vec5, cal: Calibration): Vec5 {
    [h[0], h[1] + h[0] * cal.angSlopeX, h[2], h[3] + h[2] * cal.angSlopeY, h[4]]
  }

  function Pow(x: real, n: nat): real {
    if n == 0 then 1.0 else x * Pow(x, n - 1)
  }

  /** The product of v[i]^e[i] over the first j inputs. */
  function MonomialUpTo(v: Vec5, e: Exps, j: nat): real
    requires j <= 5
  {
    if j == 0 then 1.0 else MonomialUpTo(v, e, j - 1) * Pow(v[j - 1], e[j - 1])
  }

  /** The monomial of one term: the product of v[i]^e[i] over all five inputs. */
  function Monomial(v: Vec5, e: Exps): real {
    MonomialUpTo(v, e, 5)
  }

  /** sum[k]: the sum over the terms of Coeff[k] times the term's monomial. */
  function CosySum(terms: seq<ReconTerm>, v: Vec5, k: nat): real
    requires k < 4
  {
    if terms == [] then 0.0
    else
      var last := terms[|terms| - 1];
      CosySum(terms[..|terms| - 1], v, k) + last.coeff[k] * Monomial(v, last.exp)
  }

  /**
   * The COSY sums of FindVertices: for each term a product that skips the
   * inputs whose exponent is 0, then `sum[k] += term * Coeff[k]`.
   */
  method CosySums(terms: seq<ReconTerm>, v: Vec5) returns (sums: seq<real>)
    ensures |sums| == 4
    ensures forall k :: 0 <= k < 4 ==> sums[k] == CosySum(terms, v, k)
  {
    var sum := new real[4];
    for k := 0 to 4
      invariant forall k' :: 0 <= k' < k ==> sum[k'] == 0.0
    {
      sum[k] := 0.0;
    }
    for iterm := 0 to |terms|
      invariant forall k :: 0 <= k < 4 ==> sum[k] == CosySum(terms[..iterm], v, k)
    {
      var t := terms[iterm];
      var term := 1.0;
      for j := 0 to 5
        invariant term == MonomialUpTo(v, t.exp, j)
      {
        if t.exp[j] != 0 {
          term := term * Pow(v[j], t.exp[j]);
        }
      }
      assert terms[..iterm + 1][..iterm] == terms[..iterm];
      for k := 0 to 4
        invariant forall k' :: 0 <= k' < k ==> sum[k'] == CosySum(terms[..iterm + 1], v, k')
        invariant forall k' :: k <= k' < 4 ==> sum[k'] == CosySum(terms[..iterm], v, k')
      {
        sum[k] := sum[k] + term * t.coeff[k];
      }
    }
    assert terms[..|terms|] == terms;
    sums := sum[..];
  }

  /** The track with its target quantities written (SetTarget, SetDp, SetMomentum). */
  function Reconstruct(t: Track, cal: Calibration, kin: Kinematics, terms: seq<ReconTerm>): Track {
    var v := Rotate(FocalVector(t, cal), cal);
    var dp := CosySum(terms, v, 3) * 100.0 + kin.deltaOffset;
    t.(tX := 0.0,
       tY := CosySum(terms, v, 1) * 100.0,
       tTheta := CosySum(terms, v, 0) + kin.phiOffset,
       tPhi := CosySum(terms, v, 2) + kin.thetaOffset,
       dp := dp,
       p := kin.pcentral * (1.0 + dp / 100.0))
  }

  /** The sums over a concatenation of term lists add up. */
  lemma {:induction false} CosySumAppend(a: seq<ReconTerm>, b: seq<ReconTerm>, v: Vec5, k: nat)
    requires k < 4
    ensures CosySum(a + b, v, k) == CosySum(a, v, k) + CosySum(b, v, k)
    decreases |b|
  {
    if b == [] {
      assert a + b == a;
    } else {
      var b' := b[..|b| - 1];
      assert (a + b)[..|a + b| - 1] == a + b';
      CosySumAppend(a, b', v, k);
    }
  }

  /** The order of the term blocks does not change the sums (over exact reals). */
  lemma CosySumBlocksCommute(a: seq<ReconTerm>, b: seq<ReconTerm>, v: Vec5, k: nat)
    requires k < 4
    ensures CosySum(a + b, v, k) == CosySum(b + a, v, k)
  {
    CosySumAppend(a, b, v, k);
    CosySumAppend(b, a, v, k);
  }

  /** A term whose exponents are all zero contributes its coefficient, whatever the input. */
  lemma ConstantTerm(c: Coeffs, v: Vec5, k: nat)
    requires k < 4
    ensures CosySum([ReconTerm(c, [0, 0, 0, 0, 0])], v, k) == c[k]
  {
    var t := ReconTerm(c, [0, 0, 0, 0, 0]);
    assert [t][..0] == [];
    var i := 0;
    while i < 5
      invariant i <= 5
      invariant MonomialUpTo(v, t.exp, i) == 1.0
    {
      i := i + 1;
    }
  }

  /** A term with exponent 1 on input j alone contributes Coeff[k] * v[j]. */
  lemma LinearTerm(c: Coeffs, e: Exps, j: nat, v: Vec5, k: nat)
    requires j < 5 && k < 4
    requires forall i :: 0 <= i < 5 ==> e[i] == if i == j then 1 else 0
    ensures CosySum([ReconTerm(c, e)], v, k) == c[k] * v[j]
  {
    assert [ReconTerm(c, e)][..0] == [];
    assert Pow(v[j], 1) == v[j];
    var i := 0;
    while i < 5
      invariant i <= 5
      invariant MonomialUpTo(v, e, i) == if j < i then v[j] else 1.0
    {
      assert e[i] == 0 ==> Pow(v[i], e[i]) == 1.0;
      i := i + 1;
    }
  }

  /** With zero slopes the rotation leaves the vector unchanged; it only ever moves hut[1] and hut[3]. */
  lemma RotationTouchesOnlyAngles(h: Vec5, cal: Calibration)
    ensures var r := Rotate(h, cal);
            r[0] == h[0] && r[2] == h[2] && r[4] == h[4] &&
            (cal.angSlopeX == 0.0 && cal.angSlopeY == 0.0 ==> r == h)
  {
    var r := Rotate(h, cal);
    if cal.angSlopeX == 0.0 && cal.angSlopeY == 0.0 {
      assert r[1] == h[1] && r[3] == h[3];
      assert forall i :: 0 <= i < 5 ==> r[i] == h[i];
    }
  }

  /**
   * With the zeroed calibration that InitializeReconstruction leaves (the rotation
   * section of the file is skipped), hut_rot == hut == (x/100, theta, y/100, phi, 0).
   */
  lemma ZeroCalibrationVector(t: Track)
    ensures var h := FocalVector(t, ZeroCalibration);
            h == [t.x / 100.0, t.theta, t.y / 100.0, t.phi, 0.0] &&
            Rotate(h, ZeroCalibration) == h
  {
  }

  /**
   * Reconstruction writes only the target fields, the momentum is always
   * pcentral * (1 + dp/100), and with no terms dp is the delta offset alone.
   */
  lemma ReconstructProperties(t: Track, cal: Calibration, kin: Kinematics, terms: seq<ReconTerm>)
    ensures var r := Reconstruct(t, cal, kin, terms);
            r.(tX := t.tX, tY := t.tY, tTheta := t.tTheta, tPhi := t.tPhi, dp := t.dp, p := t.p) == t &&
            r.p == kin.pcentral * (1.0 + r.dp / 100.0) &&
            (terms == [] ==> r.dp == kin.deltaOffset && r.tY == 0.0 &&
                             r.tTheta == kin.phiOffset && r.tPhi == kin.thetaOffset)
  {
    var v := Rotate(FocalVector(t, cal), cal);
    if terms == [] {
      assert CosySum(terms, v, 0) == 0.0 && CosySum(terms, v, 1) == 0.0;
      assert CosySum(terms, v, 2) == 0.0 && CosySum(terms, v, 3) == 0.0;
    }
  }

  /** The target quantities depend only on the four focal-plane inputs. */
  lemma ReconstructDependsOnlyOnFocalPlane(t: Track, u: Track, cal: Calibration, kin: Kinematics,
                                           terms: seq<ReconTerm>)
    requires t.x == u.x && t.theta == u.theta && t.y == u.y && t.phi == u.phi
    ensures var rt := Reconstruct(t, cal, kin, terms);
            var ru := Reconstruct(u, cal, kin, terms);
            rt.tX == ru.tX && rt.tY == ru.tY && rt.tTheta == ru.tTheta &&
            rt.tPhi == ru.tPhi && rt.dp == ru.dp && rt.p == ru.p
  {
    assert FocalVector(t, cal) == FocalVector(u, cal);
  }

  /** A worked example: the terms x (Coeff 1,0,0,2) and theta^2 (Coeff 0,3,0,1) ... */
  const ExampleTerms: seq<ReconTerm> :=
    [ReconTerm([1.0, 0.0, 0.0, 2.0], [1, 0, 0, 0, 0]), ReconTerm([0.0, 3.0, 0.0, 1.0], [0, 2, 0, 0, 0])]
  /** ... evaluated at hut = (2, 3, 0, 0, 0) ... */
  const ExampleInput: Vec5 := [2.0, 3.0, 0.0, 0.0, 0.0]

  /** ... give the sums 2, 27, 0 and 13. */
  lemma WorkedExample()
    ensures CosySum(ExampleTerms, ExampleInput, 0) == 2.0
    ensures CosySum(ExampleTerms, ExampleInput, 1) == 27.0
    ensures CosySum(ExampleTerms, ExampleInput, 2) == 0.0
    ensures CosySum(ExampleTerms, ExampleInput, 3) == 13.0
  {
    var t1, t2, v := ExampleTerms[0], ExampleTerms[1], ExampleInput;
    assert ExampleTerms == [t1, t2];
    assert Pow(2.0, 1) == 2.0;
    assert Pow(3.0, 2) == 9.0 by { assert Pow(3.0, 1) == 3.0; }
    assert MonomialUpTo(v, t1.exp, 1) == 2.0;
    assert MonomialUpTo(v, t1.exp, 2) == 2.0;
    assert MonomialUpTo(v, t1.exp, 3) == 2.0;
    assert MonomialUpTo(v, t1.exp, 4) == 2.0;
    assert Monomial(v, t1.exp) == 2.0;
    assert MonomialUpTo(v, t2.exp, 1) == 1.0;
    assert MonomialUpTo(v, t2.exp, 2) == 9.0;
    assert MonomialUpTo(v, t2.exp, 3) == 9.0;
    assert MonomialUpTo(v, t2.exp, 4) == 9.0;
    assert Monomial(v, t2.exp) == 9.0;
    assert [t1, t2][..1] == [t1];
    assert [t1][..0] == [];
    forall k | 0 <= k < 4
      ensures CosySum([t1, t2], v, k) == t1.coeff[k] * 2.0 + t2.coeff[k] * 9.0
    {
      assert CosySum([t1], v, k) == t1.coeff[k] * 2.0;
    }
  }
}
