/**
 * Scintillator paddle matching: what the spectrometer reads from the hodoscope,
 * the paddle a track is expected to hit, the per-plane hit masks, and the
 * mismatch between the expected paddle and the paddles that fired.
 */
module Hodoscope {
  import opened Tracks

  /**
   * The hodoscope as the spectrometer queries it. Per plane: paddle count,
   * plane center, paddle spacing and number of hits; `goodRawPad` answers
   * GetGoodRawPad for a raw-hit index; one start-time value per event.
   */
  datatype HodoscopeView = HodoscopeView(
    nPaddles: seq<nat>, planeCenter: seq<real>, planeSpacing: seq<real>,
    nScinHits: seq<nat>, goodRawPad: nat -> int, startTimeCenter: real)

  /** z position and depth of the 2X and 2Y planes (scin_2x_zpos, scin_2x_dzpos, ...). */
  datatype ScinGeometry = ScinGeometry(x2Zpos: real, x2dZpos: real, y2Zpos: real, y2dZpos: real)

  /** Plane 2 is the 2X plane and plane 3 the 2Y plane. */
  const PlaneX: nat := 2
  const PlaneY: nat := 3

  /**
   * What the matching code relies on: the two matching planes exist with a
   * non-zero spacing (the expected paddle divides by it), and every scanned
   * plane has a hit count.
   */
  ghost predicate ValidView(h: HodoscopeView, nPlanes: int) {
    && |h.nPaddles| >= 4 && |h.planeCenter| >= 4 && |h.planeSpacing| >= 4
    && h.planeSpacing[PlaneX] != 0.0 && h.planeSpacing[PlaneY] != 0.0
    && |h.nScinHits| >= 4 && nPlanes <= |h.nScinHits|
  }

  /** Total hits of the planes before `p`: the raw index of plane p's first hit, relative to the track's first. */
  function HitsBefore(hits: seq<nat>, p: nat): nat
    requires p <= |hits|
  {
    if p == 0 then 0 else HitsBefore(hits, p - 1) + hits[p - 1]
  }

  /** Raw hits consumed by one pass over the planes 0 .. nPlanes-1. */
  function HitsPerScan(h: HodoscopeView, nPlanes: int): nat
    requires nPlanes <= |h.nScinHits|
  {
    if nPlanes <= 0 then 0 else HitsBefore(h.nScinHits, nPlanes)
  }

  function Fill(n: nat, v: int): (r: seq<int>)
    ensures |r| == n && forall i :: 0 <= i < n ==> r[i] == v
  {
    seq(n, _ => v)
  }

  /**
   * The paddle mask after marking `count` hits read from raw index `start` on:
   * hit paddles become 0. A pad outside the mask marks nothing; the methods
   * that write the hit arrays rule such pads out.
   */
  function Marked(mask: seq<int>, pad: nat -> int, start: nat, count: nat): (r: seq<int>)
    ensures |r| == |mask|
  {
    if count == 0 then mask
    else
      var m := Marked(mask, pad, start, count - 1);
      var q := PadAt(pad, start, count - 1);
      if 0 <= q < |m| then m[q := 0] else m
  }

  /** Each of the `count` hits read from raw index `start` on reports a paddle below n. */
  predicate PadsIn(pad: nat -> int, start: nat, count: nat, n: nat) {
    forall i :: 0 <= i < count ==> 0 <= PadAt(pad, start, i) < n
  }

  /**
   * The hit array of plane p after one pass over the planes whose first raw
   * hit is `base`: every paddle -1, then 0 for the paddles of p's hits.
   */
  function PlaneMask(h: HodoscopeView, nPlanes: int, base: nat, p: nat, n: nat): (r: seq<int>)
    requires nPlanes <= |h.nScinHits| && p < |h.nScinHits|
    ensures |r| == n
  {
    if p < nPlanes then Marked(Fill(n, -1), h.goodRawPad, base + HitsBefore(h.nScinHits, p), h.nScinHits[p])
    else Fill(n, -1)
  }

  /** The pad reported by the i-th of the hits read from raw index `start` on. */
  function PadAt(pad: nat -> int, start: nat, i: nat): int {
    pad(start + i)
  }

  /** Paddle j is marked exactly when one of the `count` hits reports it. */
  lemma {:induction false} MarkedMeaning(n: nat, pad: nat -> int, start: nat, count: nat, j: nat)
    requires j < n
    ensures var r := Marked(Fill(n, -1), pad, start, count);
            (r[j] == 0 <==> exists i :: 0 <= i < count && PadAt(pad, start, i) == j) &&
            (r[j] == 0 || r[j] == -1)
  {
    if count > 0 {
      MarkedMeaning(n, pad, start, count - 1, j);
      if pad(start + count - 1) == j {
        assert exists i :: 0 <= i < count && PadAt(pad, start, i) == j by {
          assert PadAt(pad, start, count - 1) == j;
        }
      } else {
        var r' := Marked(Fill(n, -1), pad, start, count - 1);
        if exists i :: 0 <= i < count && PadAt(pad, start, i) == j {
          var i :| 0 <= i < count && PadAt(pad, start, i) == j;
          assert i < count - 1;
        }
      }
    }
  }

  /** Sets every paddle of a plane's hit array to -1 (not hit). */
  method ResetHits(a: array<int>)
    modifies a
    ensures a[..] == Fill(a.Length, -1)
  {
    for j := 0 to a.Length
      invariant forall k :: 0 <= k < j ==> a[k] == -1
    {
      a[j] := -1;
    }
  }

  /**
   * The hits of plane `ip`: advance the raw-hit cursor once per hit and mark
   * the reported paddle in the 2X or 2Y array when `ip` is that plane.
   */
  method MarkPlane(pad: nat -> int, ip: nat, count: nat, rawIndex: int, xHits: array<int>, yHits: array<int>)
    returns (rawAfter: int)
    requires rawIndex >= -1 && xHits != yHits
    requires ip == PlaneX ==> PadsIn(pad, rawIndex + 1, count, xHits.Length)
    requires ip == PlaneY ==> PadsIn(pad, rawIndex + 1, count, yHits.Length)
    modifies xHits, yHits
    ensures rawAfter == rawIndex + count
    ensures xHits[..] == if ip == PlaneX then Marked(old(xHits[..]), pad, rawIndex + 1, count) else old(xHits[..])
    ensures yHits[..] == if ip == PlaneY then Marked(old(yHits[..]), pad, rawIndex + 1, count) else old(yHits[..])
  {
    rawAfter := rawIndex;
    for ihit := 0 to count
      invariant rawAfter == rawIndex + ihit
      invariant xHits[..] == if ip == PlaneX then Marked(old(xHits[..]), pad, rawIndex + 1, ihit) else old(xHits[..])
      invariant yHits[..] == if ip == PlaneY then Marked(old(yHits[..]), pad, rawIndex + 1, ihit) else old(yHits[..])
    {
      rawAfter := rawAfter + 1;
      var goodRawPad := pad(rawAfter);
      assert goodRawPad == PadAt(pad, rawIndex + 1, ihit);
      if ip == PlaneX {
        xHits[goodRawPad] := 0;
      }
      if ip == PlaneY {
        yHits[goodRawPad] := 0;
      }
    }
  }

  /** The hit array of plane p once the planes before `ip` have been scanned. */
  function MaskSoFar(h: HodoscopeView, nPlanes: int, base: nat, p: nat, ip: nat, n: nat): (r: seq<int>)
    requires nPlanes <= |h.nScinHits| && p < |h.nScinHits|
  {
    if ip > p then PlaneMask(h, nPlanes, base, p, n) else Fill(n, -1)
  }

  /** Scanning plane ip marks the hits of plane p when ip is p, and leaves its mask alone otherwise. */
  lemma MaskSoFarStep(h: HodoscopeView, nPlanes: int, base: nat, p: nat, ip: nat, n: nat)
    requires nPlanes <= |h.nScinHits| && p < |h.nScinHits| && ip < nPlanes
    ensures MaskSoFar(h, nPlanes, base, p, ip + 1, n) ==
            if ip == p then Marked(MaskSoFar(h, nPlanes, base, p, ip, n), h.goodRawPad, base + HitsBefore(h.nScinHits, ip), h.nScinHits[ip])
            else MaskSoFar(h, nPlanes, base, p, ip, n)
  {
  }

  /**
   * The source indexes the 2X array with the pads of plane 2's hits and the 2Y
   * array with those of plane 3's, unchecked: in a pass whose first raw hit is
   * `base`, those pads must be valid paddles of their plane.
   */
  predicate ScanPadsFit(h: HodoscopeView, nPlanes: int, base: nat)
    requires ValidView(h, nPlanes)
  {
    && (PlaneX < nPlanes ==>
          PadsIn(h.goodRawPad, base + HitsBefore(h.nScinHits, PlaneX), h.nScinHits[PlaneX], h.nPaddles[PlaneX]))
    && (PlaneY < nPlanes ==>
          PadsIn(h.goodRawPad, base + HitsBefore(h.nScinHits, PlaneY), h.nScinHits[PlaneY], h.nPaddles[PlaneY]))
  }

  /** The first raw hit of pass k: every pass consumes HitsPerScan raw hits. */
  function ScanStart(h: HodoscopeView, nPlanes: int, k: nat): nat
    requires nPlanes <= |h.nScinHits|
  {
    k * HitsPerScan(h, nPlanes)
  }

  /** The pads of the first n passes fit their planes. */
  predicate PadsFitScans(h: HodoscopeView, nPlanes: int, n: nat)
    requires ValidView(h, nPlanes)
  {
    forall k: nat :: k < n ==> ScanPadsFit(h, nPlanes, ScanStart(h, nPlanes, k))
  }

  /**
   * The hit-marking loops of the scintillator strategy: reset both hit arrays
   * to -1, then advance the raw-hit cursor once per hit of every plane, marking
   * the 2X and 2Y paddles that fired.
   */
  method MarkHits(h: HodoscopeView, nPlanes: int, rawIndex: int, xHits: array<int>, yHits: array<int>)
    returns (rawAfter: int)
    requires ValidView(h, nPlanes) && rawIndex >= -1 && ScanPadsFit(h, nPlanes, rawIndex + 1)
    requires xHits.Length == h.nPaddles[PlaneX] && yHits.Length == h.nPaddles[PlaneY]
    requires xHits != yHits
    modifies xHits, yHits
    ensures rawAfter == rawIndex + HitsPerScan(h, nPlanes)
    ensures xHits[..] == PlaneMask(h, nPlanes, rawIndex + 1, PlaneX, xHits.Length)
    ensures yHits[..] == PlaneMask(h, nPlanes, rawIndex + 1, PlaneY, yHits.Length)
  {
    var nx, ny := xHits.Length, yHits.Length;
    ResetHits(xHits);
    ResetHits(yHits);
    ghost var base: nat := rawIndex + 1;
    rawAfter := rawIndex;
    var ip := 0;
    while ip < nPlanes
      invariant 0 <= ip <= (if nPlanes > 0 then nPlanes else 0)
      invariant rawAfter + 1 == base + HitsBefore(h.nScinHits, ip)
      invariant xHits[..] == MaskSoFar(h, nPlanes, base, PlaneX, ip, nx)
      invariant yHits[..] == MaskSoFar(h, nPlanes, base, PlaneY, ip, ny)
    {
      assert ip == PlaneX ==> PadsIn(h.goodRawPad, rawAfter + 1, h.nScinHits[ip], nx);
      assert ip == PlaneY ==> PadsIn(h.goodRawPad, rawAfter + 1, h.nScinHits[ip], ny);
      MaskSoFarStep(h, nPlanes, base, PlaneX, ip, nx);
      MaskSoFarStep(h, nPlanes, base, PlaneY, ip, ny);
      rawAfter := MarkPlane(h.goodRawPad, ip, h.nScinHits[ip], rawAfter, xHits, yHits);
      ip := ip + 1;
    }
  }

  /** min(max(icounter, ...)): TMath::Max(TMath::Min(icounter, n), 1). */
  function Clamp(icounter: int, n: int): (c: int)
    ensures n >= 1 ==> 1 <= c <= n
    ensures 1 <= icounter <= n ==> c == icounter
    ensures icounter < 1 ==> c == 1
    ensures n >= 1 && icounter > n ==> c == n
  {
    var lo := if icounter < n then icounter else n;
    if lo > 1 then lo else 1
  }

  /** fHitCnt4: the 2Y paddle the track points at, from its y position projected to the plane. */
  function ExpectedPaddleY(t: Track, h: HodoscopeView, geo: ScinGeometry, nint: real -> int): (c: int)
    requires |h.nPaddles| >= 4 && |h.planeCenter| >= 4 && |h.planeSpacing| >= 4
    requires h.planeSpacing[PlaneY] != 0.0
    ensures h.nPaddles[PlaneY] >= 1 ==> 1 <= c <= h.nPaddles[PlaneY]
    ensures h.nPaddles[PlaneY] < 1 ==> c == 1
  {
    var hitpos := t.y + t.phi * (geo.y2Zpos + 0.5 * geo.y2dZpos);
    Clamp(nint((h.planeCenter[PlaneY] - hitpos) / h.planeSpacing[PlaneY]) + 1, h.nPaddles[PlaneY])
  }

  /** fHitCnt3: the 2X paddle the track points at (the sign convention is the reverse of 2Y). */
  function ExpectedPaddleX(t: Track, h: HodoscopeView, geo: ScinGeometry, nint: real -> int): (c: int)
    requires |h.nPaddles| >= 4 && |h.planeCenter| >= 4 && |h.planeSpacing| >= 4
    requires h.planeSpacing[PlaneX] != 0.0
    ensures h.nPaddles[PlaneX] >= 1 ==> 1 <= c <= h.nPaddles[PlaneX]
    ensures h.nPaddles[PlaneX] < 1 ==> c == 1
  {
    var hitpos := t.x + t.theta * (geo.x2Zpos + 0.5 * geo.x2dZpos);
    Clamp(nint((hitpos - h.planeCenter[PlaneX]) / h.planeSpacing[PlaneX]) + 1, h.nPaddles[PlaneX])
  }

  /** |cnt - i - 1|: distance between expected paddle `cnt` (1-based) and hit paddle i (0-based). */
  function Dist(cnt: int, i: nat): nat {
    if cnt - i - 1 >= 0 then cnt - i - 1 else i + 1 - cnt
  }

  /** The indices of the hit paddles (mask value 0), ascending. */
  function HitPaddles(mask: seq<int>): seq<nat> {
    if mask == [] then []
    else HitPaddles(mask[..|mask| - 1]) + (if mask[|mask| - 1] == 0 then [|mask| - 1] else [])
  }

  /** The list holds exactly the paddles whose mask value is 0, each once, in ascending order. */
  lemma {:induction false} HitPaddlesMeaning(mask: seq<int>)
    ensures forall k :: 0 <= k < |HitPaddles(mask)| ==> HitPaddles(mask)[k] < |mask| && mask[HitPaddles(mask)[k]] == 0
    ensures forall j :: 0 <= j < |mask| && mask[j] == 0 ==> j in HitPaddles(mask)
    ensures forall k, l :: 0 <= k < l < |HitPaddles(mask)| ==> HitPaddles(mask)[k] < HitPaddles(mask)[l]
  {
    if mask != [] {
      var init := mask[..|mask| - 1];
      HitPaddlesMeaning(init);
      forall j | 0 <= j < |init|
        ensures init[j] == mask[j]
      {
      }
      var ps := HitPaddles(init);
      assert HitPaddles(mask) == ps + (if mask[|mask| - 1] == 0 then [|mask| - 1] else []);
    }
  }

  /** The smallest distance from `cnt` to the paddles of a non-empty list. */
  function MinDist(cnt: int, ps: seq<nat>): nat
    requires |ps| > 0
  {
    if |ps| == 1 then Dist(cnt, ps[0])
    else
      var d0 := MinDist(cnt, ps[..|ps| - 1]);
      var d1 := Dist(cnt, ps[|ps| - 1]);
      if d1 < d0 then d1 else d0
  }

  /** MinDist is a lower bound on every distance in the list and attained by one of them. */
  lemma {:induction false} MinDistIsMinimum(cnt: int, ps: seq<nat>)
    requires |ps| > 0
    ensures forall k :: 0 <= k < |ps| ==> MinDist(cnt, ps) <= Dist(cnt, ps[k])
    ensures exists k :: 0 <= k < |ps| && MinDist(cnt, ps) == Dist(cnt, ps[k])
  {
    if |ps| > 1 {
      var init := ps[..|ps| - 1];
      MinDistIsMinimum(cnt, init);
      assert forall k :: 0 <= k < |init| ==> init[k] == ps[k];
      var k :| 0 <= k < |init| && MinDist(cnt, init) == Dist(cnt, init[k]);
      if Dist(cnt, ps[|ps| - 1]) >= MinDist(cnt, init) {
        assert MinDist(cnt, ps) == Dist(cnt, ps[k]);
      } else {
        assert MinDist(cnt, ps) == Dist(cnt, ps[|ps| - 1]);
      }
    } else {
      assert MinDist(cnt, ps) == Dist(cnt, ps[0]);
    }
  }

  function Min(a: int, b: int): int {
    if a < b then a else b
  }

  /** The running minimum of the scan after the hit paddles `ps`: taken over the first six, 0 with none. */
  function Zap(cnt: int, ps: seq<nat>): nat {
    if ps == [] then 0 else MinDist(cnt, ps[..Min(6, |ps|)])
  }

  /** The mismatch as the code computes it for one plane's hit array. */
  function FirstSixMismatch(mask: seq<int>, cnt: int): nat {
    Zap(cnt, HitPaddles(mask))
  }

  /** Extending the mask by one paddle appends that paddle to the hit list when it fired. */
  lemma HitPaddlesStep(mask: seq<int>, i: nat)
    requires i < |mask|
    ensures HitPaddles(mask[..i + 1]) == HitPaddles(mask[..i]) + (if mask[i] == 0 then [i] else [])
  {
    assert mask[..i + 1][..i] == mask[..i];
  }

  /** One step of the scan: the first hit sets the minimum, hits two to six may lower it, later ones do not. */
  lemma {:induction false} ZapStep(cnt: int, ps: seq<nat>, x: nat)
    ensures Zap(cnt, ps + [x]) ==
            if ps == [] then Dist(cnt, x)
            else if |ps| < 6 && Dist(cnt, x) < Zap(cnt, ps) then Dist(cnt, x)
            else Zap(cnt, ps)
  {
    var qs := ps + [x];
    if ps == [] {
      assert qs[..1] == [x];
    } else if |ps| < 6 {
      assert qs[..|qs|] == qs;
      assert ps[..|ps|] == ps;
      assert qs[..|qs| - 1] == ps;
    } else {
      assert qs[..6] == ps[..6];
    }
  }

  /**
   * The paddle scan of one plane: count the hit paddles in ascending order
   * (`ft`); the first sets the running minimum (`fZap`), the second to sixth
   * lower it, later ones are ignored.
   */
  method PlaneMismatch(hits: array<int>, cnt: int) returns (zap: nat)
    ensures zap == FirstSixMismatch(hits[..], cnt)
  {
    zap := 0;
    var ft := 0;
    for i := 0 to hits.Length
      invariant ft == |HitPaddles(hits[..i])|
      invariant zap == Zap(cnt, HitPaddles(hits[..i]))
    {
      HitPaddlesStep(hits[..], i);
      assert hits[..][..i] == hits[..i] && hits[..][..i + 1] == hits[..i + 1];
      ghost var before := HitPaddles(hits[..i]);
      if hits[i] == 0 {
        assert HitPaddles(hits[..i + 1]) == before + [i];
        ZapStep(cnt, before, i);
        var d := Dist(cnt, i);
        ft := ft + 1;
        if ft == 1 {
          zap := d;
        }
        if 2 <= ft <= 6 && d < zap {
          zap := d;
        }
      } else {
        assert HitPaddles(hits[..i + 1]) == before;
      }
    }
    assert hits[..hits.Length] == hits[..];
  }

  /** The mismatch never exceeds the distance to any of the first six hit paddles and equals one of them. */
  lemma MismatchIsMinOfFirstSix(mask: seq<int>, cnt: int)
    requires HitPaddles(mask) != []
    ensures var ps := HitPaddles(mask);
            var d := FirstSixMismatch(mask, cnt);
            (forall k :: 0 <= k < |ps| && k < 6 ==> d <= Dist(cnt, ps[k])) &&
            (exists k :: 0 <= k < |ps| && k < 6 && d == Dist(cnt, ps[k]))
  {
    var ps := HitPaddles(mask);
    var first := ps[..Min(6, |ps|)];
    MinDistIsMinimum(cnt, first);
    assert forall k :: 0 <= k < |ps| && k < 6 ==> first[k] == ps[k];
    var k :| 0 <= k < |first| && MinDist(cnt, first) == Dist(cnt, first[k]);
    assert first[k] == ps[k];
  }

  /** With at most six hit paddles the mismatch is the true minimum distance over all of them. */
  lemma MismatchExactForFewHits(mask: seq<int>, cnt: int, j: nat)
    requires |HitPaddles(mask)| <= 6
    requires j < |mask| && mask[j] == 0
    ensures FirstSixMismatch(mask, cnt) <= Dist(cnt, j)
  {
    var ps := HitPaddles(mask);
    HitPaddlesMeaning(mask);
    assert j in ps;
    var k :| 0 <= k < |ps| && ps[k] == j;
    MinDistIsMinimum(cnt, ps);
    assert ps[..Min(6, |ps|)] == ps;
  }

  /**
   * A seventh hit paddle is never looked at: paddles 0..6 fired and the track
   * points at paddle 7 (the 0-based paddle 6); the code reports 1, not 0.
   */
  lemma SeventhHitIgnored()
    ensures FirstSixMismatch([0, 0, 0, 0, 0, 0, 0], 7) == 1
    ensures Dist(7, 6) == 0
  {
    SevenPaddlesFired();
    ZapOfSevenPaddles();
  }

  /** Seven fired paddles in a row are listed as paddles 0..6. */
  lemma SevenPaddlesFired()
    ensures HitPaddles([0, 0, 0, 0, 0, 0, 0]) == [0, 1, 2, 3, 4, 5, 6]
  {
    var mask := [0, 0, 0, 0, 0, 0, 0];
    assert HitPaddles(mask[..0]) == [] by { assert mask[..0] == []; }
    HitPaddlesStep(mask, 0);
    HitPaddlesStep(mask, 1);
    HitPaddlesStep(mask, 2);
    HitPaddlesStep(mask, 3);
    HitPaddlesStep(mask, 4);
    HitPaddlesStep(mask, 5);
    HitPaddlesStep(mask, 6);
    assert mask[..7] == mask;
  }

  /** Against paddle 7, the first six of paddles 0..6 leave a running minimum of 1. */
  lemma ZapOfSevenPaddles()
    ensures Zap(7, [0, 1, 2, 3, 4, 5, 6]) == 1
  {
    ZapStep(7, [], 0);
    ZapStep(7, [0], 1);
    ZapStep(7, [0, 1], 2);
    ZapStep(7, [0, 1, 2], 3);
    ZapStep(7, [0, 1, 2, 3], 4);
    ZapStep(7, [0, 1, 2, 3, 4], 5);
    ZapStep(7, [0, 1, 2, 3, 4, 5], 6);
    assert Zap(7, [0]) == 6 by { assert [] + [0] == [0]; }
    assert Zap(7, [0, 1]) == 5 by { assert [0] + [1] == [0, 1]; }
    assert Zap(7, [0, 1, 2]) == 4 by { assert [0, 1] + [2] == [0, 1, 2]; }
    assert Zap(7, [0, 1, 2, 3]) == 3 by { assert [0, 1, 2] + [3] == [0, 1, 2, 3]; }
    assert Zap(7, [0, 1, 2, 3, 4]) == 2 by { assert [0, 1, 2, 3] + [4] == [0, 1, 2, 3, 4]; }
    assert Zap(7, [0, 1, 2, 3, 4, 5]) == 1 by { assert [0, 1, 2, 3, 4] + [5] == [0, 1, 2, 3, 4, 5]; }
    assert [0, 1, 2, 3, 4, 5] + [6] == [0, 1, 2, 3, 4, 5, 6];
  }

  /** With the expected paddle inside the plane, the mismatch is below the plane's paddle count. */
  lemma MismatchBelowPaddleCount(mask: seq<int>, cnt: int)
    requires 1 <= cnt <= |mask|
    ensures FirstSixMismatch(mask, cnt) < |mask|
  {
    var ps := HitPaddles(mask);
    if ps != [] {
      HitPaddlesMeaning(mask);
      var first := ps[..Min(6, |ps|)];
      MinDistIsMinimum(cnt, first);
      var k :| 0 <= k < |first| && MinDist(cnt, first) == Dist(cnt, first[k]);
      assert k < |ps| && first[k] == ps[k];
      assert ps[k] < |mask|;
    }
  }
}
