/** The velocity-azimuth display (VAD) wind retrieval of lidar_to_vad.py:
    per range ring, rays whose quality metric fails the threshold are
    replaced by the fill value and masked, a sinusoid is fitted to the
    radial velocities by solving the normal equations, and the fit is scored.

    Trigonometry, degree-to-radian conversion and the beam-height formula are
    floating-point numerics supplied by the caller (`Numerics`); the linear
    solves are exact Cramer's rule over the reals. */
module Vad {
  import opened Common

  /** The sentinel written for rejected rays and failed fits. */
  const FILL_VALUE: real := -9999.0

  // ---------------------------------------------------------------------
  // Quality masking
  // ---------------------------------------------------------------------

  /** `np.where(metric <= thresh, FILL_VALUE, xs)`: rays failing the
      threshold get the fill value, all others keep their value. */
  function ApplyThreshold(metric: seq<real>, xs: seq<real>, thresh: real): (r: seq<real>)
    requires |metric| == |xs|
    ensures |r| == |xs|
    ensures forall j :: 0 <= j < |xs| && metric[j] <= thresh ==> r[j] == FILL_VALUE
    ensures forall j :: 0 <= j < |xs| && metric[j] > thresh ==> r[j] == xs[j]
  {
    seq(|xs|, j requires 0 <= j < |xs| => if metric[j] <= thresh then FILL_VALUE else xs[j])
  }

  /** A numpy masked array: the data and, per position, whether it is masked. */
  datatype MaskedArray = MaskedArray(data: seq<real>, mask: seq<bool>)

  /** `_list_to_masked_array`: keeps every value and masks exactly those
      equal to `maskValue`. */
  function ListToMaskedArray(xs: seq<real>, maskValue: real): (m: MaskedArray)
    ensures m.data == xs && |m.mask| == |xs|
    ensures forall j :: 0 <= j < |xs| ==> (m.mask[j] <==> xs[j] == maskValue)
  {
    MaskedArray(xs, seq(|xs|, j requires 0 <= j < |xs| => xs[j] == maskValue))
  }

  /** Thresholding then masking keeps the ring's length and masks a ray
      exactly when it failed the threshold or already held the fill value. */
  lemma MaskedRing(metric: seq<real>, xs: seq<real>, thresh: real)
    requires |metric| == |xs|
    ensures var m := ListToMaskedArray(ApplyThreshold(metric, xs, thresh), FILL_VALUE);
      |m.data| == |m.mask| == |xs| &&
      forall j :: 0 <= j < |xs| ==> (m.mask[j] <==> metric[j] <= thresh || xs[j] == FILL_VALUE)
  {
  }

  // ---------------------------------------------------------------------
  // Sums over the unmasked rays of a ring
  // ---------------------------------------------------------------------

  /** One ray as the solvers use it: its azimuth in radians, the sines and
      cosines of its azimuth and elevation, and its radial velocity. */
  datatype Ray = Ray(azRad: real, sinAz: real, cosAz: real, sinElev: real, cosElev: real, vel: real)

  /** A ring position is `None` where the ray is masked. */
  type Ring = seq<Option<Ray>>

  // The summands of the normal equations.
  function VelSin(r: Ray): real { r.vel * r.sinAz }
  function SinSin(r: Ray): real { r.sinAz * r.sinAz }
  function CosSin(r: Ray): real { r.cosAz * r.sinAz }
  function VelCos(r: Ray): real { r.vel * r.cosAz }
  function CosCos(r: Ray): real { r.cosAz * r.cosAz }
  function SinSinCosEl(r: Ray): real { r.sinAz * r.sinAz * r.cosElev }
  function SinCosCosEl(r: Ray): real { r.sinAz * r.cosAz * r.cosElev }
  function SinCosEl(r: Ray): real { r.sinAz * r.cosElev }
  function CosCosCosEl(r: Ray): real { r.cosAz * r.cosAz * r.cosElev }
  function CosCosEl(r: Ray): real { r.cosAz * r.cosElev }
  function SinSinEl(r: Ray): real { r.sinAz * r.sinElev }
  function CosSinEl(r: Ray): real { r.cosAz * r.sinElev }
  function AzSinEl(r: Ray): real { r.azRad * r.sinElev }
  function SinEl(r: Ray): real { r.sinElev }
  function Vel(r: Ray): real { r.vel }

  /** The sum of `f` over the unmasked rays; masked rays are absent. */
  function Sum(ring: Ring, f: Ray -> real): real
    decreases |ring|
  {
    if |ring| == 0 then 0.0
    else (if ring[0].Some? then f(ring[0].value) else 0.0) + Sum(ring[1..], f)
  }

  /** Sums are linear in the summand. */
  lemma {:induction false} SumLinear(ring: Ring, f: Ray -> real, g: Ray -> real, h: Ray -> real, a: real, b: real)
    requires forall j :: 0 <= j < |ring| && ring[j].Some? ==> h(ring[j].value) == a * f(ring[j].value) + b * g(ring[j].value)
    ensures Sum(ring, h) == a * Sum(ring, f) + b * Sum(ring, g)
    decreases |ring|
  {
    if |ring| > 0 {
      SumLinear(ring[1..], f, g, h, a, b);
    }
  }

  /** The fitted wind; every component is FILL_VALUE when the fit failed. */
  datatype Wind = Wind(u: real, v: real, w: real)

  const FILL_WIND := Wind(FILL_VALUE, FILL_VALUE, FILL_VALUE)

  // ---------------------------------------------------------------------
  // calc_vad: the horizontal fit
  // ---------------------------------------------------------------------

  /** The normal equations of calc_vad, written [[B, E], [C, F]] (u, v) = (A, D). */
  datatype System2 = System2(a: real, b: real, c: real, d: real, e: real, f: real)

  function Normal2(ring: Ring, cosElev: real): (s: System2)
    ensures s.c == s.e
  {
    System2(
      Sum(ring, VelSin),
      Sum(ring, SinSin) * cosElev,
      Sum(ring, CosSin) * cosElev,
      Sum(ring, VelCos),
      Sum(ring, CosSin) * cosElev,
      Sum(ring, CosCos) * cosElev)
  }

  function Det2(s: System2): real {
    s.b * s.f - s.e * s.c
  }

  /** (u, v) satisfies both rows of a 2-by-2 system. */
  predicate Solves2(s: System2, u: real, v: real) {
    s.b * u + s.e * v == s.a && s.c * u + s.f * v == s.d
  }

  /** Cramer's rule for a non-singular 2-by-2 system: the unique solution. */
  function Solve2(s: System2): (r: (real, real))
    requires Det2(s) != 0.0
    ensures Solves2(s, r.0, r.1)
  {
    var det := Det2(s);
    var u := (s.a * s.f - s.e * s.d) / det;
    var v := (s.b * s.d - s.c * s.a) / det;
    assert s.b * (s.a * s.f - s.e * s.d) + s.e * (s.b * s.d - s.c * s.a) == s.a * det;
    assert s.c * (s.a * s.f - s.e * s.d) + s.f * (s.b * s.d - s.c * s.a) == s.d * det;
    DivideRow2(s.b, s.e, s.a * s.f - s.e * s.d, s.b * s.d - s.c * s.a, det, s.a);
    DivideRow2(s.c, s.f, s.a * s.f - s.e * s.d, s.b * s.d - s.c * s.a, det, s.d);
    (u, v)
  }

  /** A row that holds for the numerators holds for the quotients. */
  lemma DivideRow2(p: real, q: real, n1: real, n2: real, det: real, rhs: real)
    requires det != 0.0
    requires p * n1 + q * n2 == rhs * det
    ensures p * (n1 / det) + q * (n2 / det) == rhs
  {
    var u, v := n1 / det, n2 / det;
    assert n1 == u * det && n2 == v * det;
    assert (p * u + q * v) * det == rhs * det;
  }

  /** A non-singular system has no other solution. */
  lemma Solve2Unique(s: System2, u: real, v: real)
    requires Det2(s) != 0.0
    requires Solves2(s, u, v)
    ensures Solve2(s) == (u, v)
  {
    var (u', v') := Solve2(s);
    var du, dv := u' - u, v' - v;
    assert s.b * du + s.e * dv == 0.0;
    assert s.c * du + s.f * dv == 0.0;
    assert du * Det2(s) == s.f * (s.b * du + s.e * dv) - s.e * (s.c * du + s.f * dv);
    assert dv * Det2(s) == s.b * (s.c * du + s.f * dv) - s.c * (s.b * du + s.e * dv);
  }

  /** calc_vad as written: a pair (u, v) on success but a triple of fill
      values on either failure path. */
  function CalcVadAsWritten(ring: Ring, cosElev: real): (r: seq<real>)
    ensures |ring| <= 1 ==> r == [FILL_VALUE, FILL_VALUE, FILL_VALUE]
  {
    if |ring| > 1 then
      var s := Normal2(ring, cosElev);
      if Det2(s) == 0.0 then [FILL_VALUE, FILL_VALUE, FILL_VALUE]
      else [Solve2(s).0, Solve2(s).1]
    else [FILL_VALUE, FILL_VALUE, FILL_VALUE]
  }

  /** Two rays, due east and due north, make a non-singular system. */
  lemma EastNorthNonSingular(east: Ray, north: Ray)
    requires east.sinAz == 1.0 && east.cosAz == 0.0 && north.sinAz == 0.0 && north.cosAz == 1.0
    ensures Det2(Normal2([Some(east), Some(north)], 1.0)) == 1.0
  {
    SumOfTwo(east, north, SinSin);
    SumOfTwo(east, north, CosSin);
    SumOfTwo(east, north, CosCos);
  }

  /** The same input shape gives a pair on one path and a triple on the
      others, so no single unpacking `u, v, w = calc_vad(...)` works for both. */
  lemma CalcVadArityDiffers(east: Ray, north: Ray)
    requires east.sinAz == 1.0 && east.cosAz == 0.0 && north.sinAz == 0.0 && north.cosAz == 1.0
    ensures |CalcVadAsWritten([Some(east), Some(north)], 1.0)| == 2
    ensures |CalcVadAsWritten([Some(east)], 1.0)| == 3
  {
    EastNorthNonSingular(east, north);
  }

  lemma SumOfTwo(x: Ray, y: Ray, f: Ray -> real)
    ensures Sum([Some(x), Some(y)], f) == f(x) + f(y)
  {
    var ring := [Some(x), Some(y)];
    assert ring[1..] == [Some(y)];
    assert ring[1..][1..] == [];
    calc {
      Sum(ring, f);
      f(x) + Sum([Some(y)], f);
      f(x) + (f(y) + Sum([], f));
      f(x) + f(y);
    }
  }

  /** calc_vad with one result shape: the horizontal wind with the vertical
      component always FILL_VALUE. With at most one ray, or a singular
      system, every component is the fill value; otherwise (u, v) solves
      the normal equations. */
  function CalcVad(ring: Ring, cosElev: real): (wind: Wind)
    ensures |ring| <= 1 ==> wind == FILL_WIND
    ensures |ring| > 1 && Det2(Normal2(ring, cosElev)) == 0.0 ==> wind == FILL_WIND
    ensures |ring| > 1 && Det2(Normal2(ring, cosElev)) != 0.0 ==>
      var s := Normal2(ring, cosElev);
      wind.w == FILL_VALUE && Solves2(s, wind.u, wind.v)
  {
    if |ring| > 1 then
      var s := Normal2(ring, cosElev);
      if Det2(s) == 0.0 then FILL_WIND
      else Wind(Solve2(s).0, Solve2(s).1, FILL_VALUE)
    else FILL_WIND
  }

  /** The forward model of the horizontal fit. */
  predicate Horizontal(r: Ray, u: real, v: real, cosElev: real) {
    r.vel == u * r.sinAz * cosElev + v * r.cosAz * cosElev
  }

  lemma HorizontalSummands(r: Ray, u: real, v: real, cosElev: real)
    requires Horizontal(r, u, v, cosElev)
    ensures VelSin(r) == u * cosElev * SinSin(r) + v * cosElev * CosSin(r)
    ensures VelCos(r) == u * cosElev * CosSin(r) + v * cosElev * CosCos(r)
  {
  }

  /** The normal equations rearranged: plain algebra on the sums. */
  lemma Regroup(s: System2, ss: real, cs: real, cc: real, k: real, u: real, v: real)
    requires s.b == ss * k && s.c == cs * k && s.e == cs * k && s.f == cc * k
    requires s.a == u * k * ss + v * k * cs
    requires s.d == u * k * cs + v * k * cc
    ensures Solves2(s, u, v)
  {
  }

  /** Over a ring that follows the forward model, the sum of vel * sin(az) is
      the matching combination of the trigonometric sums. */
  lemma SumVelSinOfHorizontal(ring: Ring, cosElev: real, u: real, v: real)
    requires forall j :: 0 <= j < |ring| && ring[j].Some? ==> Horizontal(ring[j].value, u, v, cosElev)
    ensures Sum(ring, VelSin) == u * cosElev * Sum(ring, SinSin) + v * cosElev * Sum(ring, CosSin)
  {
    var a, b := u * cosElev, v * cosElev;
    forall j | 0 <= j < |ring| && ring[j].Some?
      ensures VelSin(ring[j].value) == a * SinSin(ring[j].value) + b * CosSin(ring[j].value)
    {
      HorizontalSummands(ring[j].value, u, v, cosElev);
    }
    SumLinear(ring, SinSin, CosSin, VelSin, a, b);
  }

  /** The same for the sum of vel * cos(az). */
  lemma SumVelCosOfHorizontal(ring: Ring, cosElev: real, u: real, v: real)
    requires forall j :: 0 <= j < |ring| && ring[j].Some? ==> Horizontal(ring[j].value, u, v, cosElev)
    ensures Sum(ring, VelCos) == u * cosElev * Sum(ring, CosSin) + v * cosElev * Sum(ring, CosCos)
  {
    var a, b := u * cosElev, v * cosElev;
    forall j | 0 <= j < |ring| && ring[j].Some?
      ensures VelCos(ring[j].value) == a * CosSin(ring[j].value) + b * CosCos(ring[j].value)
    {
      HorizontalSummands(ring[j].value, u, v, cosElev);
    }
    SumLinear(ring, CosSin, CosCos, VelCos, a, b);
  }

  /** When the velocity sums follow the forward model, (u, v) solves the normal equations. */
  lemma NormalOfHorizontal(ring: Ring, cosElev: real, u: real, v: real)
    requires Sum(ring, VelSin) == u * cosElev * Sum(ring, SinSin) + v * cosElev * Sum(ring, CosSin)
    requires Sum(ring, VelCos) == u * cosElev * Sum(ring, CosSin) + v * cosElev * Sum(ring, CosCos)
    ensures Solves2(Normal2(ring, cosElev), u, v)
  {
    Regroup(Normal2(ring, cosElev), Sum(ring, SinSin), Sum(ring, CosSin), Sum(ring, CosCos), cosElev, u, v);
  }

  /** Recovery: radial velocities generated without noise from a wind (u, v)
      give that wind back whenever the system is not singular. */
  lemma CalcVadRecovers(ring: Ring, cosElev: real, u: real, v: real)
    requires |ring| > 1 && Det2(Normal2(ring, cosElev)) != 0.0
    requires forall j :: 0 <= j < |ring| && ring[j].Some? ==> Horizontal(ring[j].value, u, v, cosElev)
    ensures CalcVad(ring, cosElev) == Wind(u, v, FILL_VALUE)
  {
    SumVelSinOfHorizontal(ring, cosElev, u, v);
    SumVelCosOfHorizontal(ring, cosElev, u, v);
    NormalOfHorizontal(ring, cosElev, u, v);
    Solve2Unique(Normal2(ring, cosElev), u, v);
  }

  // ---------------------------------------------------------------------
  // calc_vad_3d: the fit with a vertical component
  // ---------------------------------------------------------------------

  /** The 3-by-3 system of calc_vad_3d, rows (B, E, X), (C, F, Y), (G, H, Z)
      and right-hand side (A, D, W). */
  datatype System3 = System3(
    b: real, e: real, x: real,
    c: real, f: real, y: real,
    g: real, h: real, z: real,
    a: real, d: real, w: real)

  /** The sums exactly as calc_vad_3d forms them, including Z, which
      multiplies the azimuth itself (in radians), not a trigonometric value. */
  function Normal3(ring: Ring): (s: System3)
    ensures s.c == s.e
  {
    System3(
      Sum(ring, SinSinCosEl),
      Sum(ring, SinCosCosEl),
      Sum(ring, SinCosEl),
      Sum(ring, SinCosCosEl),
      Sum(ring, CosCosCosEl),
      Sum(ring, CosCosEl),
      Sum(ring, SinSinEl),
      Sum(ring, CosSinEl),
      Sum(ring, AzSinEl),
      Sum(ring, VelSin),
      Sum(ring, VelCos),
      Sum(ring, Vel))
  }

  function Det3(s: System3): real {
    s.b * (s.f * s.z - s.y * s.h) - s.e * (s.c * s.z - s.y * s.g) + s.x * (s.c * s.h - s.f * s.g)
  }

  /** Cramer's rule for the first unknown, times the determinant. */
  function NumU(s: System3): real {
    s.a * (s.f * s.z - s.y * s.h) - s.e * (s.d * s.z - s.y * s.w) + s.x * (s.d * s.h - s.f * s.w)
  }

  function NumV(s: System3): real {
    s.b * (s.d * s.z - s.y * s.w) - s.a * (s.c * s.z - s.y * s.g) + s.x * (s.c * s.w - s.d * s.g)
  }

  function NumW(s: System3): real {
    s.b * (s.f * s.w - s.d * s.h) - s.e * (s.c * s.w - s.d * s.g) + s.a * (s.c * s.h - s.f * s.g)
  }

  /** Each row of Cramer's rule, multiplied by the determinant: a polynomial
      identity in the twelve entries. */
  lemma CramerRow1(s: System3)
    ensures s.b * NumU(s) + s.e * NumV(s) + s.x * NumW(s) == s.a * Det3(s)
  {
  }

  lemma CramerRow2(s: System3)
    ensures s.c * NumU(s) + s.f * NumV(s) + s.y * NumW(s) == s.d * Det3(s)
  {
  }

  lemma CramerRow3(s: System3)
    ensures s.g * NumU(s) + s.h * NumV(s) + s.z * NumW(s) == s.w * Det3(s)
  {
  }

  /** A row that holds for the numerators holds for the quotients. */
  lemma DivideRow(p: real, q: real, r: real, n1: real, n2: real, n3: real, det: real, rhs: real)
    requires det != 0.0
    requires p * n1 + q * n2 + r * n3 == rhs * det
    ensures p * (n1 / det) + q * (n2 / det) + r * (n3 / det) == rhs
  {
    var u, v, w := n1 / det, n2 / det, n3 / det;
    assert n1 == u * det && n2 == v * det && n3 == w * det;
    assert (p * u + q * v + r * w) * det == rhs * det;
  }

  /** (u, v, w) satisfies every row of a 3-by-3 system. */
  predicate Solves3(s: System3, r: Wind) {
    s.b * r.u + s.e * r.v + s.x * r.w == s.a &&
    s.c * r.u + s.f * r.v + s.y * r.w == s.d &&
    s.g * r.u + s.h * r.v + s.z * r.w == s.w
  }

  /** Cramer's rule for a non-singular 3-by-3 system. */
  function Solve3(s: System3): (r: Wind)
    requires Det3(s) != 0.0
    ensures Solves3(s, r)
  {
    CramerSolves(s);
    Wind(NumU(s) / Det3(s), NumV(s) / Det3(s), NumW(s) / Det3(s))
  }

  /** The quotients of the numerators by the determinant satisfy each row. */
  lemma CramerSolves(s: System3)
    requires Det3(s) != 0.0
    ensures var det := Det3(s);
      s.b * (NumU(s) / det) + s.e * (NumV(s) / det) + s.x * (NumW(s) / det) == s.a &&
      s.c * (NumU(s) / det) + s.f * (NumV(s) / det) + s.y * (NumW(s) / det) == s.d &&
      s.g * (NumU(s) / det) + s.h * (NumV(s) / det) + s.z * (NumW(s) / det) == s.w
  {
    SolvesRow1(s);
    SolvesRow2(s);
    SolvesRow3(s);
  }

  lemma SolvesRow1(s: System3)
    requires Det3(s) != 0.0
    ensures s.b * (NumU(s) / Det3(s)) + s.e * (NumV(s) / Det3(s)) + s.x * (NumW(s) / Det3(s)) == s.a
  {
    CramerRow1(s);
    DivideRow(s.b, s.e, s.x, NumU(s), NumV(s), NumW(s), Det3(s), s.a);
  }

  lemma SolvesRow2(s: System3)
    requires Det3(s) != 0.0
    ensures s.c * (NumU(s) / Det3(s)) + s.f * (NumV(s) / Det3(s)) + s.y * (NumW(s) / Det3(s)) == s.d
  {
    CramerRow2(s);
    DivideRow(s.c, s.f, s.y, NumU(s), NumV(s), NumW(s), Det3(s), s.d);
  }

  lemma SolvesRow3(s: System3)
    requires Det3(s) != 0.0
    ensures s.g * (NumU(s) / Det3(s)) + s.h * (NumV(s) / Det3(s)) + s.z * (NumW(s) / Det3(s)) == s.w
  {
    CramerRow3(s);
    DivideRow(s.g, s.h, s.z, NumU(s), NumV(s), NumW(s), Det3(s), s.w);
  }

  /** calc_vad_3d: with at most one ray, or a singular system, every
      component is the fill value; otherwise (u, v, w) solves its system. */
  function CalcVad3d(ring: Ring): (wind: Wind)
    ensures |ring| <= 1 ==> wind == FILL_WIND
    ensures |ring| > 1 && Det3(Normal3(ring)) == 0.0 ==> wind == FILL_WIND
    ensures |ring| > 1 && Det3(Normal3(ring)) != 0.0 ==> Solves3(Normal3(ring), wind)
  {
    if |ring| > 1 then
      var s := Normal3(ring);
      var det := Det3(s);
      if det == 0.0 then FILL_WIND
      else
        Solve3(s)
    else FILL_WIND
  }

  /** Three-term linearity of sums. */
  lemma {:induction false} SumLinear3(ring: Ring, f: Ray -> real, g: Ray -> real, k: Ray -> real, h: Ray -> real,
                                      a: real, b: real, c: real)
    requires forall j :: 0 <= j < |ring| && ring[j].Some? ==>
      h(ring[j].value) == a * f(ring[j].value) + b * g(ring[j].value) + c * k(ring[j].value)
    ensures Sum(ring, h) == a * Sum(ring, f) + b * Sum(ring, g) + c * Sum(ring, k)
    decreases |ring|
  {
    if |ring| > 0 {
      SumLinear3(ring[1..], f, g, k, h, a, b, c);
    }
  }

  /** A system whose right-hand side is the product of its rows with
      (u, v, w). */
  function WithSolution(s: System3, u: real, v: real, w: real): System3 {
    s.(a := s.b * u + s.e * v + s.x * w, d := s.c * u + s.f * v + s.y * w, w := s.g * u + s.h * v + s.z * w)
  }

  /** Cramer's numerators of such a system are (u, v, w) times the
      determinant: a polynomial identity. */
  lemma CramerOfSolution(s: System3, u: real, v: real, w: real)
    ensures var t := WithSolution(s, u, v, w);
      NumU(t) == u * Det3(t) && NumV(t) == v * Det3(t) && NumW(t) == w * Det3(t)
  {
  }

  /** A non-singular 3-by-3 system has no solution but Cramer's. */
  lemma Solve3Unique(s: System3, r: Wind)
    requires Det3(s) != 0.0
    requires Solves3(s, r)
    ensures Solve3(s) == r
  {
    CramerOfRows(s, r);
    DivideSolution(NumU(s), NumV(s), NumW(s), Det3(s), r);
  }

  /** Cramer's numerators of a system that (u, v, w) solves. */
  lemma CramerOfRows(s: System3, r: Wind)
    requires Solves3(s, r)
    ensures NumU(s) == r.u * Det3(s) && NumV(s) == r.v * Det3(s) && NumW(s) == r.w * Det3(s)
  {
    assert WithSolution(s, r.u, r.v, r.w) == s;
    CramerOfSolution(s, r.u, r.v, r.w);
  }

  /** Numerators that are the unknowns times the determinant divide back to them. */
  lemma DivideSolution(nu: real, nv: real, nw: real, det: real, r: Wind)
    requires det != 0.0
    requires nu == r.u * det && nv == r.v * det && nw == r.w * det
    ensures Wind(nu / det, nv / det, nw / det) == r
  {
  }

  /** The system the comment of calc_vad_3d states, A = uB + vC + wG,
      D = uE + vF + wH and W = uX + vY + wZ, taken row by row, with Z the
      sum of sin(elev) so that the third equation sums the forward model. */
  function Normal3Intended(ring: Ring): (s: System3)
    ensures s.b == Normal3(ring).b && s.f == Normal3(ring).f && s.a == Normal3(ring).a && s.d == Normal3(ring).d
  {
    System3(
      Sum(ring, SinSinCosEl), Sum(ring, SinCosCosEl), Sum(ring, SinSinEl),
      Sum(ring, SinCosCosEl), Sum(ring, CosCosCosEl), Sum(ring, CosSinEl),
      Sum(ring, SinCosEl), Sum(ring, CosCosEl), Sum(ring, SinEl),
      Sum(ring, VelSin), Sum(ring, VelCos), Sum(ring, Vel))
  }

  /** calc_vad_3d solving the system its comment states. */
  function CalcVad3dCorrected(ring: Ring): (wind: Wind)
    ensures |ring| <= 1 ==> wind == FILL_WIND
    ensures |ring| > 1 && Det3(Normal3Intended(ring)) == 0.0 ==> wind == FILL_WIND
    ensures |ring| > 1 && Det3(Normal3Intended(ring)) != 0.0 ==> Solves3(Normal3Intended(ring), wind)
  {
    if |ring| > 1 then
      var s := Normal3Intended(ring);
      if Det3(s) == 0.0 then FILL_WIND else Solve3(s)
    else FILL_WIND
  }

  /** One ray that follows the 3-D forward model: each velocity summand is
      the matching combination of the trigonometric summands. */
  lemma ExactSummands(r: Ray, wind: Wind)
    requires r.vel == Derived(r, wind)
    ensures VelSin(r) == wind.u * SinSinCosEl(r) + wind.v * SinCosCosEl(r) + wind.w * SinSinEl(r)
    ensures VelCos(r) == wind.u * SinCosCosEl(r) + wind.v * CosCosCosEl(r) + wind.w * CosSinEl(r)
    ensures Vel(r) == wind.u * SinCosEl(r) + wind.v * CosCosEl(r) + wind.w * SinEl(r)
  {
  }

  /** Over a ring that follows the forward model, each unmasked ray's
      summands of the first row combine by the wind. */
  lemma RowSummands1(ring: Ring, wind: Wind)
    requires ExactlyFitted(ring, wind)
    ensures forall j :: 0 <= j < |ring| && ring[j].Some? ==>
      VelSin(ring[j].value) == wind.u * SinSinCosEl(ring[j].value) + wind.v * SinCosCosEl(ring[j].value) + wind.w * SinSinEl(ring[j].value)
  {
    forall j | 0 <= j < |ring| && ring[j].Some?
      ensures VelSin(ring[j].value) == wind.u * SinSinCosEl(ring[j].value) + wind.v * SinCosCosEl(ring[j].value) + wind.w * SinSinEl(ring[j].value)
    {
      ExactSummands(ring[j].value, wind);
    }
  }

  /** The first row of the intended system holds for a wind the ring
      follows exactly. */
  lemma IntendedRow1(ring: Ring, wind: Wind)
    requires ExactlyFitted(ring, wind)
    ensures Sum(ring, VelSin) == wind.u * Sum(ring, SinSinCosEl) + wind.v * Sum(ring, SinCosCosEl) + wind.w * Sum(ring, SinSinEl)
  {
    RowSummands1(ring, wind);
    SumLinear3(ring, SinSinCosEl, SinCosCosEl, SinSinEl, VelSin, wind.u, wind.v, wind.w);
  }

  /** Over a ring that follows the forward model, each unmasked ray's
      summands of the second row combine by the wind. */
  lemma RowSummands2(ring: Ring, wind: Wind)
    requires ExactlyFitted(ring, wind)
    ensures forall j :: 0 <= j < |ring| && ring[j].Some? ==>
      VelCos(ring[j].value) == wind.u * SinCosCosEl(ring[j].value) + wind.v * CosCosCosEl(ring[j].value) + wind.w * CosSinEl(ring[j].value)
  {
    forall j | 0 <= j < |ring| && ring[j].Some?
      ensures VelCos(ring[j].value) == wind.u * SinCosCosEl(ring[j].value) + wind.v * CosCosCosEl(ring[j].value) + wind.w * CosSinEl(ring[j].value)
    {
      ExactSummands(ring[j].value, wind);
    }
  }

  /** The second row of the intended system holds for a wind the ring
      follows exactly. */
  lemma IntendedRow2(ring: Ring, wind: Wind)
    requires ExactlyFitted(ring, wind)
    ensures Sum(ring, VelCos) == wind.u * Sum(ring, SinCosCosEl) + wind.v * Sum(ring, CosCosCosEl) + wind.w * Sum(ring, CosSinEl)
  {
    RowSummands2(ring, wind);
    SumLinear3(ring, SinCosCosEl, CosCosCosEl, CosSinEl, VelCos, wind.u, wind.v, wind.w);
  }

  /** Over a ring that follows the forward model, each unmasked ray's
      summands of the third row combine by the wind. */
  lemma RowSummands3(ring: Ring, wind: Wind)
    requires ExactlyFitted(ring, wind)
    ensures forall j :: 0 <= j < |ring| && ring[j].Some? ==>
      Vel(ring[j].value) == wind.u * SinCosEl(ring[j].value) + wind.v * CosCosEl(ring[j].value) + wind.w * SinEl(ring[j].value)
  {
    forall j | 0 <= j < |ring| && ring[j].Some?
      ensures Vel(ring[j].value) == wind.u * SinCosEl(ring[j].value) + wind.v * CosCosEl(ring[j].value) + wind.w * SinEl(ring[j].value)
    {
      ExactSummands(ring[j].value, wind);
    }
  }

  /** The third row of the intended system holds for a wind the ring
      follows exactly. */
  lemma IntendedRow3(ring: Ring, wind: Wind)
    requires ExactlyFitted(ring, wind)
    ensures Sum(ring, Vel) == wind.u * Sum(ring, SinCosEl) + wind.v * Sum(ring, CosCosEl) + wind.w * Sum(ring, SinEl)
  {
    RowSummands3(ring, wind);
    SumLinear3(ring, SinCosEl, CosCosEl, SinEl, Vel, wind.u, wind.v, wind.w);
  }

  /** Recovery: radial velocities generated without noise from a wind
      (u, v, w) give that wind back whenever the system is not singular. */
  lemma CalcVad3dCorrectedRecovers(ring: Ring, wind: Wind)
    requires |ring| > 1 && Det3(Normal3Intended(ring)) != 0.0
    requires ExactlyFitted(ring, wind)
    ensures CalcVad3dCorrected(ring) == wind
  {
    IntendedRow1(ring, wind);
    IntendedRow2(ring, wind);
    IntendedRow3(ring, wind);
    Solve3Unique(Normal3Intended(ring), wind);
  }

  /** The sum over four unmasked rays. */
  lemma SumOfFour(ring: Ring, f: Ray -> real)
    requires |ring| == 4 && ring[0].Some? && ring[1].Some? && ring[2].Some? && ring[3].Some?
    ensures Sum(ring, f) == f(ring[0].value) + f(ring[1].value) + f(ring[2].value) + f(ring[3].value)
  {
    assert Sum(ring[3..], f) == f(ring[3].value) by {
      assert ring[3..][1..] == [];
    }
    assert Sum(ring[2..], f) == f(ring[2].value) + Sum(ring[3..], f) by {
      assert ring[2..][1..] == ring[3..];
    }
    assert Sum(ring[1..], f) == f(ring[1].value) + Sum(ring[2..], f) by {
      assert ring[1..][1..] == ring[2..];
    }
  }

  /** Four beams 90 degrees apart at an elevation with sine 0.6 and cosine
      0.8, in a purely vertical wind of 1 m/s: every radial velocity is 0.6.
      `halfPi` is the azimuth of the second beam in radians. */
  function VerticalRing(halfPi: real): Ring {
    [Some(Ray(0.0, 0.0, 1.0, 0.6, 0.8, 0.6)),
     Some(Ray(halfPi, 1.0, 0.0, 0.6, 0.8, 0.6)),
     Some(Ray(2.0 * halfPi, 0.0, -1.0, 0.6, 0.8, 0.6)),
     Some(Ray(3.0 * halfPi, -1.0, 0.0, 0.6, 0.8, 0.6))]
  }

  /** The system calc_vad_3d forms over the four beams. */
  lemma VerticalRingSystem(halfPi: real)
    ensures Normal3(VerticalRing(halfPi)) ==
      System3(1.6, 0.0, 0.0, 0.0, 1.6, 0.0, 0.0, 0.0, 3.6 * halfPi, 0.0, 0.0, 2.4)
  {
    var ring := VerticalRing(halfPi);
    SumOfFour(ring, SinSinCosEl);
    SumOfFour(ring, SinCosCosEl);
    SumOfFour(ring, SinCosEl);
    SumOfFour(ring, CosCosCosEl);
    SumOfFour(ring, CosCosEl);
    SumOfFour(ring, SinSinEl);
    SumOfFour(ring, CosSinEl);
    SumOfFour(ring, AzSinEl);
    SumOfFour(ring, VelSin);
    SumOfFour(ring, VelCos);
    SumOfFour(ring, Vel);
  }

  /** The intended system over the four beams. */
  lemma VerticalRingIntended(halfPi: real)
    ensures Normal3Intended(VerticalRing(halfPi)) ==
      System3(1.6, 0.0, 0.0, 0.0, 1.6, 0.0, 0.0, 0.0, 2.4, 0.0, 0.0, 2.4)
  {
    var ring := VerticalRing(halfPi);
    SumOfFour(ring, SinSinCosEl);
    SumOfFour(ring, SinCosCosEl);
    SumOfFour(ring, SinCosEl);
    SumOfFour(ring, CosCosCosEl);
    SumOfFour(ring, CosCosEl);
    SumOfFour(ring, SinSinEl);
    SumOfFour(ring, CosSinEl);
    SumOfFour(ring, SinEl);
    SumOfFour(ring, VelSin);
    SumOfFour(ring, VelCos);
    SumOfFour(ring, Vel);
  }

  /** The four beams follow the vertical wind exactly. */
  lemma VerticalRingExact(halfPi: real)
    ensures ExactlyFitted(VerticalRing(halfPi), Wind(0.0, 0.0, 1.0))
  {
    var ring := VerticalRing(halfPi);
    assert forall j :: 0 <= j < 4 ==> ring[j].Some? && ring[j].value.vel == Derived(ring[j].value, Wind(0.0, 0.0, 1.0));
  }

  /** As written, Z sums azimuth times sin(elev), and the matrix pairs the
      rows of the comment's equations with the wrong sums: over four beams
      that follow a vertical wind exactly, the system is not singular, yet
      its solution is not that wind. */
  lemma CalcVad3dMissesVertical(halfPi: real)
    requires 1.5 < halfPi < 1.6
    ensures ExactlyFitted(VerticalRing(halfPi), Wind(0.0, 0.0, 1.0))
    ensures Det3(Normal3(VerticalRing(halfPi))) != 0.0
    ensures CalcVad3d(VerticalRing(halfPi)) != Wind(0.0, 0.0, 1.0)
  {
    assert Det3(Normal3(VerticalRing(halfPi))) != 0.0 && CalcVad3d(VerticalRing(halfPi)) != Wind(0.0, 0.0, 1.0) by {
      VerticalRingSystem(halfPi);
      assert Det3(Normal3(VerticalRing(halfPi))) == 2.56 * (3.6 * halfPi);
    }
    VerticalRingExact(halfPi);
  }

  /** The intended system gives the same four beams' wind back. */
  lemma CalcVad3dCorrectedFindsVertical(halfPi: real)
    ensures CalcVad3dCorrected(VerticalRing(halfPi)) == Wind(0.0, 0.0, 1.0)
  {
    var ring := VerticalRing(halfPi);
    assert |ring| > 1;
    assert Det3(Normal3Intended(ring)) != 0.0 by {
      VerticalRingIntended(halfPi);
    }
    assert ExactlyFitted(ring, Wind(0.0, 0.0, 1.0)) by {
      VerticalRingExact(halfPi);
    }
    CalcVad3dCorrectedRecovers(ring, Wind(0.0, 0.0, 1.0));
  }

  // ---------------------------------------------------------------------
  // calc_homogeneity
  // ---------------------------------------------------------------------

  function SumSeq(xs: seq<real>): real
    decreases |xs|
  {
    if |xs| == 0 then 0.0 else xs[0] + SumSeq(xs[1..])
  }

  lemma Square(x: real)
    ensures x * x >= 0.0
  {
    if x < 0.0 {
      assert x * x == (-x) * (-x);
    }
  }

  /** The sum of squared differences between two aligned sequences. */
  function SumSqDiff(xs: seq<real>, ys: seq<real>): (r: real)
    requires |xs| == |ys|
    ensures r >= 0.0
    decreases |xs|
  {
    if |xs| == 0 then 0.0
    else
      Square(xs[0] - ys[0]);
      (xs[0] - ys[0]) * (xs[0] - ys[0]) + SumSqDiff(xs[1..], ys[1..])
  }

  /** The sum of squared deviations from a constant. */
  function SumSqDev(xs: seq<real>, c: real): (r: real)
    ensures r >= 0.0
    decreases |xs|
  {
    if |xs| == 0 then 0.0
    else
      Square(xs[0] - c);
      (xs[0] - c) * (xs[0] - c) + SumSqDev(xs[1..], c)
  }

  /** calc_homogeneity as written: the "mean" `vr_bar` is the SUM of the raw
      velocities. A zero denominator gives numpy's nan or inf, here None. */
  function HomogeneityAsWritten(raw: seq<real>, derived: seq<real>): (r: Option<real>)
    requires |raw| == |derived|
    ensures r.None? <==> SumSqDev(raw, SumSeq(raw)) == 0.0
    ensures r.Some? ==> r.value <= 1.0
  {
    var den := SumSqDev(raw, SumSeq(raw));
    if den == 0.0 then None
    else
      var q := SumSqDiff(raw, derived) / den;
      assert q >= 0.0;
      Some(1.0 - q)
  }

  function Mean(xs: seq<real>): real
    requires |xs| > 0
  {
    SumSeq(xs) / |xs| as real
  }

  /** The homogeneity score of section 2.2.4 of Paschke et al. (2015):
      1 - sum (raw - derived)^2 / sum (raw - mean raw)^2. It is None when
      that denominator is zero; otherwise it is at most 1. */
  function Homogeneity(raw: seq<real>, derived: seq<real>): (r: Option<real>)
    requires |raw| == |derived|
    ensures r.None? <==> |raw| == 0 || SumSqDev(raw, Mean(raw)) == 0.0
    ensures r.Some? ==> r.value <= 1.0
  {
    if |raw| == 0 then None
    else
      var den := SumSqDev(raw, Mean(raw));
      if den == 0.0 then None
      else
        var q := SumSqDiff(raw, derived) / den;
        assert q >= 0.0;
        Some(1.0 - q)
  }

  lemma {:induction false} SumSqDiffSelf(xs: seq<real>)
    ensures SumSqDiff(xs, xs) == 0.0
    decreases |xs|
  {
    if |xs| > 0 {
      SumSqDiffSelf(xs[1..]);
    }
  }

  lemma {:induction false} SumSqDiffConst(xs: seq<real>, ys: seq<real>, c: real)
    requires |xs| == |ys|
    requires forall j :: 0 <= j < |ys| ==> ys[j] == c
    ensures SumSqDiff(xs, ys) == SumSqDev(xs, c)
    decreases |xs|
  {
    if |xs| > 0 {
      SumSqDiffConst(xs[1..], ys[1..], c);
    }
  }

  lemma DivSelf(x: real)
    requires x != 0.0
    ensures x / x == 1.0
  {
  }

  /** A perfect fit scores exactly 1, in both forms of the score. */
  lemma PerfectFitScoresOne(raw: seq<real>)
    ensures HomogeneityAsWritten(raw, raw).Some? ==> HomogeneityAsWritten(raw, raw).value == 1.0
    ensures Homogeneity(raw, raw).Some? ==> Homogeneity(raw, raw).value == 1.0
  {
    SumSqDiffSelf(raw);
  }

  /** A fit that predicts the mean everywhere explains no variance: it scores 0. */
  lemma MeanPredictorScoresZero(raw: seq<real>, derived: seq<real>)
    requires |raw| == |derived| > 0
    requires forall j :: 0 <= j < |derived| ==> derived[j] == Mean(raw)
    requires SumSqDev(raw, Mean(raw)) != 0.0
    ensures Homogeneity(raw, derived) == Some(0.0)
  {
    SumSqDiffConst(raw, derived, Mean(raw));
    DivSelf(SumSqDev(raw, Mean(raw)));
  }

  /** With the sum in place of the mean, the mean predictor of [1, 3] scores
      0.8 instead of 0. */
  lemma HomogeneitySumNotMean()
    ensures HomogeneityAsWritten([1.0, 3.0], [2.0, 2.0]) == Some(0.8)
    ensures Homogeneity([1.0, 3.0], [2.0, 2.0]) == Some(0.0)
  {
    var raw := [1.0, 3.0];
    assert raw[1..][1..] == [];
    assert SumSeq(raw) == 4.0;
    assert SumSqDev(raw, 4.0) == 10.0;
    assert SumSqDiff(raw, [2.0, 2.0]) == 2.0;
    assert Mean(raw) == 2.0;
    assert SumSqDev(raw, 2.0) == 2.0;
  }

  // ---------------------------------------------------------------------
  // The per-system variable table
  // ---------------------------------------------------------------------

  /** The names of the variables a system's files use, and its threshold. */
  datatype SystemConfig = SystemConfig(
    vel: string, threshVar: string, threshValue: real,
    az: string, elev: string, range: string)

  /** `var_lookup` as written: the 'leo' entry spells its elevation
      variable "elevaton". An unknown system raises KeyError. */
  function VarLookupAsWritten(system: string): (r: Result<SystemConfig>)
    ensures r.Ok? <==> system in {"leo", "mp1", "mp3"}
    ensures r.Err? ==> r.error == KeyError(system)
    ensures r.Ok? && system == "leo" ==> r.value.elev == "elevaton" && r.value.threshValue == -27.0
  {
    if system == "leo" then
      Ok(SystemConfig("radial_wind", "cnr", -27.0, "azimuth", "elevaton", "range"))
    else if system == "mp1" then
      Ok(SystemConfig("velocity", "intensity", 1.015, "azimuth", "elevation", "range"))
    else if system == "mp3" then
      Ok(SystemConfig("velocity", "intensity", 1.005, "azimuth", "elevation", "range"))
    else Err(KeyError(system))
  }

  /** The table with the 'leo' elevation name spelt as the line-of-sight
      converter writes it; every other entry is unchanged. */
  function VarLookup(system: string): (r: Result<SystemConfig>)
    ensures r.Ok? <==> system in {"leo", "mp1", "mp3"}
    ensures r.Err? ==> r.error == KeyError(system)
    ensures r.Ok? ==> r.value.elev == "elevation" && r.value.az == "azimuth" && r.value.range == "range"
    ensures r.Ok? && system != "leo" ==> r == VarLookupAsWritten(system)
  {
    if system == "leo" then
      Ok(SystemConfig("radial_wind", "cnr", -27.0, "azimuth", "elevation", "range"))
    else VarLookupAsWritten(system)
  }

  /** Which program the pipeline follows: the code as written (the
      "elevaton" entry, the 3-D system as assembled and the score about the
      sum), or the code with all three corrected. */
  datatype Reading = AsWritten | Corrected

  /** The 3-D wind fit of a reading. */
  function Wind3(reading: Reading, ring: Ring): Wind {
    if reading.AsWritten? then CalcVad3d(ring) else CalcVad3dCorrected(ring)
  }

  /** The variable table of a reading. */
  function Table(reading: Reading, system: string): Result<SystemConfig> {
    if reading.AsWritten? then VarLookupAsWritten(system) else VarLookup(system)
  }

  /** The homogeneity score of a reading. */
  function Score(reading: Reading, raw: seq<real>, derived: seq<real>): (r: Option<real>)
    requires |raw| == |derived|
    ensures r.Some? ==> r.value <= 1.0
  {
    if reading.AsWritten? then HomogeneityAsWritten(raw, derived) else Homogeneity(raw, derived)
  }

  // ---------------------------------------------------------------------
  // The input file and the numerics supplied by the caller
  // ---------------------------------------------------------------------

  /** A variable of the input file: one-dimensional, or a (time, range) grid
      stored row by row. */
  datatype Variable =
    | Vector(values: seq<real>)
    | Grid(width: nat, rows: seq<seq<real>>)

  /** A global attribute of the input file: text or a number. */
  datatype Attr = Text(text: string) | Number(number: real)

  /** The input file: the length of its time dimension, its global
      attributes and its variables. */
  datatype Dataset = Dataset(times: nat, attrs: map<string, Attr>, vars: map<string, Variable>) {
    /** Every grid has one row per time and `width` entries in each row. */
    predicate Valid() {
      forall name | name in vars && vars[name].Grid? ::
        |vars[name].rows| == times &&
        forall t | 0 <= t < times :: |vars[name].rows[t]| == vars[name].width
    }
  }

  /** `nc[name][:, i]`: column i of a grid. netCDF4 raises IndexError for a
      missing variable, and numpy for a one-dimensional variable or a column
      past the grid's width. */
  function Column(ds: Dataset, name: string, i: nat): (r: Result<seq<real>>)
    requires ds.Valid()
    ensures r.Err? ==> r.error == IndexError
    ensures r.Ok? <==> name in ds.vars && ds.vars[name].Grid? && i < ds.vars[name].width
    ensures r.Ok? ==> (|r.value| == ds.times &&
      forall t :: 0 <= t < ds.times ==> r.value[t] == ds.vars[name].rows[t][i])
  {
    if name !in ds.vars then Err(IndexError)
    else
      match ds.vars[name]
      case Vector(_) => Err(IndexError)
      case Grid(width, rows) =>
        if i < width then Ok(seq(ds.times, t requires 0 <= t < ds.times => rows[t][i]))
        else Err(IndexError)
  }

  /** `nc[name][:]` for the range variable: netCDF4 raises IndexError for a
      missing variable; a grid is refused with TypeError. */
  function RangeValues(ds: Dataset, name: string): (r: Result<seq<real>>)
    ensures r.Ok? <==> name in ds.vars && ds.vars[name].Vector?
    ensures r.Ok? ==> r.value == ds.vars[name].values
    ensures r.Err? ==> r.error == (if name in ds.vars then TypeError else IndexError)
  {
    if name !in ds.vars then Err(IndexError)
    else if ds.vars[name].Vector? then Ok(ds.vars[name].values)
    else Err(TypeError)
  }

  /** `datetime.strptime(nc.start_time, "%Y-%m-%dT%H:%M:%S")`: a missing
      attribute is an AttributeError, a number a TypeError and text
      `strptime` rejects a ValueError. `strptime` gives the seconds since
      1970 of the text, or None. */
  function StartTime(ds: Dataset, strptime: string -> Option<int>): (r: Result<int>)
    ensures r.Ok? <==> ("start_time" in ds.attrs && ds.attrs["start_time"].Text? &&
      strptime(ds.attrs["start_time"].text).Some?)
    ensures r.Ok? ==> r.value == strptime(ds.attrs["start_time"].text).value
    ensures "start_time" !in ds.attrs ==> r == Err(AttributeError)
    ensures r.Err? && "start_time" in ds.attrs ==> r.error == (if ds.attrs["start_time"].Text? then ValueError else TypeError)
  {
    if "start_time" !in ds.attrs then Err(AttributeError)
    else match ds.attrs["start_time"]
      case Number(_) => Err(TypeError)
      case Text(text) => if strptime(text).Some? then Ok(strptime(text).value) else Err(ValueError)
  }

  /** The floating-point numerics the retrieval calls: sine and cosine of
      radians, degrees to radians, the square root and the beam height
      `_ray_height(range, elevation)`. */
  datatype Numerics = Numerics(
    sin: real -> real, cos: real -> real, rad: real -> real,
    sqrt: real -> real, rayHeight: (real, real) -> real)

  // ---------------------------------------------------------------------
  // One range ring
  // ---------------------------------------------------------------------

  function MakeRay(azDeg: real, elevDeg: real, vel: real, n: Numerics): Ray {
    var az, el := n.rad(azDeg), n.rad(elevDeg);
    Ray(az, n.sin(az), n.cos(az), n.sin(el), n.cos(el), vel)
  }

  /** The ring after thresholding and masking: a ray is masked when its
      azimuth or its velocity holds the fill value. */
  function MaskRing(metric: seq<real>, az: seq<real>, vel: seq<real>, elev: seq<real>,
                    thresh: real, n: Numerics): (ring: Ring)
    requires |metric| == |az| == |vel| == |elev|
    ensures |ring| == |az|
    ensures forall j :: 0 <= j < |ring| ==>
      (ring[j].None? <==> metric[j] <= thresh || az[j] == FILL_VALUE || vel[j] == FILL_VALUE)
    ensures forall j :: 0 <= j < |ring| && ring[j].Some? ==>
      ring[j].value == MakeRay(az[j], elev[j], vel[j], n)
  {
    var azM := ListToMaskedArray(ApplyThreshold(metric, az, thresh), FILL_VALUE);
    var velM := ListToMaskedArray(ApplyThreshold(metric, vel, thresh), FILL_VALUE);
    seq(|az|, j requires 0 <= j < |az| =>
      if azM.mask[j] || velM.mask[j] then None
      else Some(MakeRay(azM.data[j], elev[j], velM.data[j], n)))
  }

  /** The radial velocity the fitted wind predicts for a ray. */
  function Derived(r: Ray, wind: Wind): real {
    r.sinAz * r.cosElev * wind.u + r.cosAz * r.cosElev * wind.v + r.sinElev * wind.w
  }

  /** The sum of squared residuals over the unmasked rays. */
  function SumSqResidual(ring: Ring, wind: Wind): (r: real)
    ensures r >= 0.0
    decreases |ring|
  {
    if |ring| == 0 then 0.0
    else
      var e := if ring[0].Some? then ring[0].value.vel - Derived(ring[0].value, wind) else 0.0;
      Square(e);
      e * e + SumSqResidual(ring[1..], wind)
  }

  /** The unmasked velocities and the matching predicted velocities. */
  function Observed(ring: Ring): (r: seq<real>)
    decreases |ring|
  {
    if |ring| == 0 then []
    else (if ring[0].Some? then [ring[0].value.vel] else []) + Observed(ring[1..])
  }

  function Predicted(ring: Ring, wind: Wind): (r: seq<real>)
    ensures |r| == |Observed(ring)|
    decreases |ring|
  {
    if |ring| == 0 then []
    else (if ring[0].Some? then [Derived(ring[0].value, wind)] else []) + Predicted(ring[1..], wind)
  }

  /** What one range ring contributes to the profile. */
  datatype Fit = Fit(wind: Wind, hgt: real, rmse: real, rSq: Option<real>, elev: seq<real>)

  /** Fit and score one masked ring whose elevations are `elev`. The RMSE
      divides by the number of rays including masked ones, so an empty ring
      fails with a float division by zero. The wind and the score are those
      of the reading. */
  function FitRing(ring: Ring, elev: seq<real>, range: real, reading: Reading, n: Numerics): (r: Result<Fit>)
    requires |elev| == |ring|
    ensures r.Err? <==> |ring| == 0
    ensures r.Err? ==> r.error == ZeroDivisionError
    ensures r.Ok? ==> r.value.wind == Wind3(reading, ring) && r.value.elev == elev && r.value.hgt == n.rayHeight(range, elev[0])
    ensures r.Ok? && r.value.rSq.Some? ==> r.value.rSq.value <= 1.0
  {
    var wind := Wind3(reading, ring);
    if |ring| == 0 then Err(ZeroDivisionError)
    else
      var rmse := n.sqrt(1.0 / |ring| as real * SumSqResidual(ring, wind));
      var rSq := Score(reading, Observed(ring), Predicted(ring, wind));
      Ok(Fit(wind, n.rayHeight(range, elev[0]), rmse, rSq, elev))
  }

  /** The body of the ring loop of `process_file` for ring i at range
      `range`: fetch the threshold metric, velocity, azimuth and elevation
      columns, in that order, then mask, fit and score. */
  function RingFit(ds: Dataset, cfg: SystemConfig, range: real, i: nat, reading: Reading, n: Numerics): (r: Result<Fit>)
    requires ds.Valid()
    ensures r.Ok? <==> (Column(ds, cfg.threshVar, i).Ok? && Column(ds, cfg.vel, i).Ok? &&
      Column(ds, cfg.az, i).Ok? && Column(ds, cfg.elev, i).Ok? && ds.times > 0)
    ensures Column(ds, cfg.threshVar, i).Err? ==> r == Err(Column(ds, cfg.threshVar, i).error)
    ensures Column(ds, cfg.threshVar, i).Ok? && Column(ds, cfg.vel, i).Err? ==> r == Err(Column(ds, cfg.vel, i).error)
    ensures r.Ok? ==> r.value.elev == Column(ds, cfg.elev, i).value
  {
    var metric :- Column(ds, cfg.threshVar, i);
    var vel :- Column(ds, cfg.vel, i);
    var az :- Column(ds, cfg.az, i);
    var elev :- Column(ds, cfg.elev, i);
    var ring := MaskRing(metric, az, vel, elev, cfg.threshValue, n);
    FitRing(ring, elev, range, reading, n)
  }

  /** Every unmasked ray matches the wind exactly. */
  predicate ExactlyFitted(ring: Ring, wind: Wind) {
    forall j :: 0 <= j < |ring| && ring[j].Some? ==> ring[j].value.vel == Derived(ring[j].value, wind)
  }

  lemma {:induction false} ExactResidualZero(ring: Ring, wind: Wind)
    requires ExactlyFitted(ring, wind)
    ensures SumSqResidual(ring, wind) == 0.0
    ensures Observed(ring) == Predicted(ring, wind)
    decreases |ring|
  {
    if |ring| > 0 {
      assert ExactlyFitted(ring[1..], wind) by {
        forall j | 0 <= j < |ring[1..]| && ring[1..][j].Some?
          ensures ring[1..][j].value.vel == Derived(ring[1..][j].value, wind)
        {
          assert ring[1..][j] == ring[j + 1];
        }
      }
      ExactResidualZero(ring[1..], wind);
    }
  }

  /** A ring the fitted wind explains exactly scores an RMSE of sqrt(0) and,
      whenever the score is defined, a homogeneity of 1, in both readings. */
  lemma ExactFitScoresPerfectly(ring: Ring, elev: seq<real>, range: real, reading: Reading, n: Numerics)
    requires |elev| == |ring| > 0
    requires ExactlyFitted(ring, Wind3(reading, ring))
    ensures FitRing(ring, elev, range, reading, n).Ok?
    ensures FitRing(ring, elev, range, reading, n).value.rmse == n.sqrt(0.0)
    ensures FitRing(ring, elev, range, reading, n).value.rSq.Some? ==> FitRing(ring, elev, range, reading, n).value.rSq.value == 1.0
  {
    var wind := Wind3(reading, ring);
    ExactResidualZero(ring, wind);
    PerfectFitScoresOne(Observed(ring));
  }

  /** Corrected, a ring that follows a wind without noise and whose system is
      not singular is fitted with that wind, an RMSE of sqrt(0) and, whenever
      the score is defined, a homogeneity of 1. */
  lemma NoiseFreeRingFitsPerfectly(ring: Ring, elev: seq<real>, range: real, wind: Wind, n: Numerics)
    requires |elev| == |ring| > 1 && Det3(Normal3Intended(ring)) != 0.0
    requires ExactlyFitted(ring, wind)
    ensures var r := FitRing(ring, elev, range, Corrected, n);
      r.Ok? && r.value.wind == wind && r.value.rmse == n.sqrt(0.0) &&
      (r.value.rSq.Some? ==> r.value.rSq.value == 1.0)
  {
    CalcVad3dCorrectedRecovers(ring, wind);
    ExactFitScoresPerfectly(ring, elev, range, Corrected, n);
  }

  // ---------------------------------------------------------------------
  // process_file
  // ---------------------------------------------------------------------

  /** The six lists `process_file` builds, one entry per range gate. */
  datatype Profile = Profile(
    u: seq<real>, v: seq<real>, w: seq<real>, hgt: seq<real>, rmse: seq<real>,
    rSq: seq<Option<real>>)

  /** What `process_file` returns: the whole profile, or, when a height is
      requested, the entries nearest it (r_sq stays a whole list), together
      with the start time of the file (seconds since 1970) and the
      elevations of the last ring. */
  datatype VadOutput =
    | Whole(profile: Profile, date: int, elev: seq<real>)
    | Nearest(u: real, v: real, w: real, hgt: real, rmse: real, rSq: seq<Option<real>>, date: int, elev: seq<real>)

  /** The fits of the first `count` rings in order, or the error of the
      first one that fails; `fitOf(k)` is the outcome of ring k. */
  function FitsUpTo(fitOf: nat -> Result<Fit>, count: nat): (r: Result<seq<Fit>>)
    decreases count
  {
    if count == 0 then Ok([])
    else
      var prev :- FitsUpTo(fitOf, count - 1);
      var f :- fitOf(count - 1);
      Ok(prev + [f])
  }

  /** Ring k is the first ring that fails. */
  predicate FirstFailure(fitOf: nat -> Result<Fit>, k: nat) {
    fitOf(k).Err? && forall m: nat :: m < k ==> fitOf(m).Ok?
  }

  /** The fits succeed exactly when every ring does, giving one fit per ring
      in order; otherwise the error is that of the first failing ring. */
  lemma {:induction false} FitsUpToSpec(fitOf: nat -> Result<Fit>, count: nat)
    ensures var r := FitsUpTo(fitOf, count);
      (r.Ok? <==> forall k: nat :: k < count ==> fitOf(k).Ok?) &&
      (r.Ok? ==> (|r.value| == count && forall k: nat :: k < count ==> r.value[k] == fitOf(k).value)) &&
      (r.Err? ==> (exists k: nat :: k < count && FirstFailure(fitOf, k) && r.error == fitOf(k).error))
    decreases count
  {
    if count > 0 {
      FitsUpToSpec(fitOf, count - 1);
      var prev := FitsUpTo(fitOf, count - 1);
      if prev.Ok? && fitOf(count - 1).Err? {
        assert FirstFailure(fitOf, count - 1);
      }
    }
  }

  /** Once a ring fails, every longer run of fits fails with its error. */
  lemma {:induction false} FitsUpToAfterFailure(fitOf: nat -> Result<Fit>, i: nat, count: nat)
    requires i < count && FitsUpTo(fitOf, i).Ok? && fitOf(i).Err?
    ensures FitsUpTo(fitOf, count) == Err(fitOf(i).error)
    decreases count
  {
    if count - 1 > i {
      FitsUpToAfterFailure(fitOf, i, count - 1);
    }
  }

  /** The fits of a prefix of rings that all succeed succeed. */
  lemma {:induction false} FitsUpToPrefix(fitOf: nat -> Result<Fit>, count: nat)
    requires forall m: nat :: m < count ==> fitOf(m).Ok?
    ensures FitsUpTo(fitOf, count).Ok?
    decreases count
  {
    if count > 0 {
      FitsUpToPrefix(fitOf, count - 1);
    }
  }

  /** The outcome of each ring of a file, by index. */
  function RingFits(ds: Dataset, cfg: SystemConfig, ranges: seq<real>, reading: Reading, n: Numerics): nat -> Result<Fit>
    requires ds.Valid()
  {
    (k: nat) => if k < |ranges| then RingFit(ds, cfg, ranges[k], k, reading, n) else Err(IndexError)
  }

  /** The six lists of a sequence of fits. */
  function ProfileOf(fits: seq<Fit>): (p: Profile)
    ensures |p.u| == |p.v| == |p.w| == |p.hgt| == |p.rmse| == |p.rSq| == |fits|
  {
    Profile(
      seq(|fits|, k requires 0 <= k < |fits| => fits[k].wind.u),
      seq(|fits|, k requires 0 <= k < |fits| => fits[k].wind.v),
      seq(|fits|, k requires 0 <= k < |fits| => fits[k].wind.w),
      seq(|fits|, k requires 0 <= k < |fits| => fits[k].hgt),
      seq(|fits|, k requires 0 <= k < |fits| => fits[k].rmse),
      seq(|fits|, k requires 0 <= k < |fits| => fits[k].rSq))
  }

  function Dist(x: real, y: real): real {
    if x >= y then x - y else y - x
  }

  /** `np.abs(np.asarray(hgt) - height).argmin()`: the index of the first
      entry nearest `height`; argmin of an empty array raises ValueError. */
  function NearestIndex(hgt: seq<real>, height: real): (r: Result<nat>)
    ensures r.Ok? <==> |hgt| > 0
    ensures r.Err? ==> r.error == ValueError
    ensures r.Ok? ==> r.value < |hgt|
    ensures r.Ok? ==> forall k :: 0 <= k < |hgt| ==> Dist(hgt[r.value], height) <= Dist(hgt[k], height)
    ensures r.Ok? ==> forall k :: 0 <= k < r.value ==> Dist(hgt[k], height) > Dist(hgt[r.value], height)
    decreases |hgt|
  {
    if |hgt| == 0 then Err(ValueError)
    else if |hgt| == 1 then Ok(0)
    else
      var k := NearestIndex(hgt[..|hgt| - 1], height).value;
      assert forall m :: 0 <= m < |hgt| - 1 ==> hgt[..|hgt| - 1][m] == hgt[m];
      if Dist(hgt[|hgt| - 1], height) < Dist(hgt[k], height) then Ok(|hgt| - 1) else Ok(k)
  }

  /** What `process_file` returns once every ring has been fitted: with a
      requested height, the entries at the nearest height (argmin raises
      ValueError when there are none); otherwise the whole profile. The
      elevations are those of the last ring, and reading them with no ring
      at all is the unbound-local error. */
  function Finish(fits: seq<Fit>, height: Option<real>, date: int): (r: Result<VadOutput>)
  {
    var p := ProfileOf(fits);
    match height
    case Some(h) =>
      var i :- NearestIndex(p.hgt, h);
      Ok(Nearest(p.u[i], p.v[i], p.w[i], p.hgt[i], p.rmse[i], p.rSq, date, fits[|fits| - 1].elev))
    case None =>
      if |fits| == 0 then Err(Unbound) else Ok(Whole(p, date, fits[|fits| - 1].elev))
  }

  /** The ring loop followed by the height selection and the return. */
  function Run(fitOf: nat -> Result<Fit>, count: nat, height: Option<real>, date: int): Result<VadOutput> {
    var fits :- FitsUpTo(fitOf, count);
    Finish(fits, height, date)
  }

  /** `process_file` as a function of the file, the system, the height and
      the reading: the start time is read first, then the system's entry of
      the table, then the ranges, and then the rings are fitted. */
  function ProcessFileSpec(ds: Dataset, system: string, height: Option<real>, reading: Reading,
                           strptime: string -> Option<int>, n: Numerics): (r: Result<VadOutput>)
    requires ds.Valid()
    ensures StartTime(ds, strptime).Err? ==> r == Err(StartTime(ds, strptime).error)
    ensures StartTime(ds, strptime).Ok? && Table(reading, system).Err? ==> r == Err(KeyError(system))
    ensures r.Ok? ==> (StartTime(ds, strptime).Ok? && r.value.date == StartTime(ds, strptime).value &&
      system in {"leo", "mp1", "mp3"})
  {
    var date :- StartTime(ds, strptime);
    var cfg :- Table(reading, system);
    var ranges :- RangeValues(ds, cfg.range);
    Run(RingFits(ds, cfg, ranges, reading, n), |ranges|, height, date)
  }

  /** The ring loop of `process_file`: one entry per ring appended to each of
      the six lists, the elevations of the last ring kept, and the first
      failing ring's error raised. `fitOf(k)` is the body's outcome for ring k. */
  method CollectFits(fitOf: nat -> Result<Fit>, count: nat) returns (r: Result<(Profile, Option<seq<real>>)>)
    ensures FitsUpTo(fitOf, count).Err? ==> r == Err(FitsUpTo(fitOf, count).error)
    ensures FitsUpTo(fitOf, count).Ok? ==>
      var fits := FitsUpTo(fitOf, count).value;
      r == Ok((ProfileOf(fits), if |fits| == 0 then None else Some(fits[|fits| - 1].elev)))
  {
    var u, v, w, hgt, rmse, rSq := [], [], [], [], [], [];
    ghost var fits: seq<Fit> := [];
    var elev: Option<seq<real>> := None;
    var i := 0;
    while i < count
      invariant 0 <= i <= count
      invariant FitsUpTo(fitOf, i) == Ok(fits)
      invariant ProfileOf(fits) == Profile(u, v, w, hgt, rmse, rSq)
      invariant elev == (if i == 0 then None else Some(fits[|fits| - 1].elev))
    {
      var outcome := fitOf(i);
      if outcome.Err? {
        FitsUpToAfterFailure(fitOf, i, count);
        return Err(outcome.error);
      }
      var fit := outcome.value;
      u := u + [fit.wind.u];
      v := v + [fit.wind.v];
      w := w + [fit.wind.w];
      hgt := hgt + [fit.hgt];
      rmse := rmse + [fit.rmse];
      rSq := rSq + [fit.rSq];
      fits := fits + [fit];
      elev := Some(fit.elev);
      i := i + 1;
    }
    r := Ok((Profile(u, v, w, hgt, rmse, rSq), elev));
  }

  /** `process_file`: read the start time, look the system up, read the
      ranges, run the ring loop, then the height selection and the return. */
  method ProcessFile(ds: Dataset, system: string, height: Option<real>, reading: Reading,
                     strptime: string -> Option<int>, n: Numerics)
    returns (r: Result<VadOutput>)
    requires ds.Valid()
    ensures r == ProcessFileSpec(ds, system, height, reading, strptime, n)
  {
    var date :- StartTime(ds, strptime);
    var cfg :- Table(reading, system);
    var ranges :- RangeValues(ds, cfg.range);
    var collected :- CollectFits(RingFits(ds, cfg, ranges, reading, n), |ranges|);
    var p, elev := collected.0, collected.1;
    match height {
      case Some(h) =>
        var k :- NearestIndex(p.hgt, h);
        r := Ok(Nearest(p.u[k], p.v[k], p.w[k], p.hgt[k], p.rmse[k], p.rSq, date, elev.value));
      case None =>
        if elev.None? {
          return Err(Unbound);
        }
        r := Ok(Whole(p, date, elev.value));
    }
  }

  /** Without a requested height, the ring loop and the return give one
      entry per ring in each list, or the first failing ring's error, or the
      unbound-local error when there is no ring. */
  lemma WholeProfile(fitOf: nat -> Result<Fit>, count: nat, date: int)
    ensures var r := Run(fitOf, count, None, date);
      (r.Ok? <==> count > 0 && forall k: nat :: k < count ==> fitOf(k).Ok?) &&
      (count == 0 ==> r == Err(Unbound)) &&
      (forall k: nat :: k < count && FirstFailure(fitOf, k) ==> r == Err(fitOf(k).error)) &&
      (r.Ok? ==> (r.value.Whole? &&
        var p := r.value.profile;
        |p.u| == |p.v| == |p.w| == |p.hgt| == |p.rmse| == |p.rSq| == count &&
        (forall k: nat :: k < count ==>
          var f := fitOf(k).value;
          p.u[k] == f.wind.u && p.v[k] == f.wind.v && p.w[k] == f.wind.w &&
          p.hgt[k] == f.hgt && p.rmse[k] == f.rmse && p.rSq[k] == f.rSq) &&
        r.value.date == date && r.value.elev == fitOf(count - 1).value.elev))
  {
    FitsUpToSpec(fitOf, count);
    forall k: nat | k < count && FirstFailure(fitOf, k)
      ensures FitsUpTo(fitOf, count) == Err(fitOf(k).error)
    {
      FitsUpToPrefix(fitOf, k);
      FitsUpToAfterFailure(fitOf, k, count);
    }
  }

  /** With a requested height, the u, v, w, height and RMSE returned are
      those of the first ring whose beam height is nearest it, r_sq stays
      the whole list, and a file without range gates fails in argmin. */
  lemma NearestProfile(fitOf: nat -> Result<Fit>, count: nat, h: real, date: int)
    ensures var r := Run(fitOf, count, Some(h), date);
      (r.Ok? <==> count > 0 && forall k: nat :: k < count ==> fitOf(k).Ok?) &&
      (count == 0 ==> r == Err(ValueError)) &&
      (r.Ok? ==> (r.value.Nearest? && |r.value.rSq| == count &&
        r.value.date == date && r.value.elev == fitOf(count - 1).value.elev &&
        exists k: nat :: k < count &&
          var f := fitOf(k).value;
          r.value.u == f.wind.u && r.value.v == f.wind.v && r.value.w == f.wind.w &&
          r.value.hgt == f.hgt && r.value.rmse == f.rmse &&
          (forall m: nat :: m < count ==> Dist(f.hgt, h) <= Dist(fitOf(m).value.hgt, h)) &&
          (forall m: nat :: m < k ==> Dist(fitOf(m).value.hgt, h) > Dist(f.hgt, h))))
  {
    FitsUpToSpec(fitOf, count);
    var fits := FitsUpTo(fitOf, count);
    if fits.Ok? && count > 0 {
      var p := ProfileOf(fits.value);
      var k := NearestIndex(p.hgt, h).value;
      assert forall m: nat :: m < count ==> p.hgt[m] == fitOf(m).value.hgt;
    }
  }

  /** When every ring fits, the run succeeds with the start time and the last
      ring's elevations, and without a height gives one entry per ring. */
  lemma RunAllFit(fitOf: nat -> Result<Fit>, count: nat, height: Option<real>, date: int)
    requires count > 0 && forall k: nat :: k < count ==> fitOf(k).Ok?
    ensures var r := Run(fitOf, count, height, date);
      r.Ok? && r.value.date == date && r.value.elev == fitOf(count - 1).value.elev &&
      (height.None? ==> r.value.Whole? && |r.value.profile.u| == count)
  {
    match height {
      case None => WholeProfile(fitOf, count, date);
      case Some(h) => NearestProfile(fitOf, count, h, date);
    }
  }

  /** Once the start time, the system's entry and the ranges are read,
      `process_file` is the ring loop and the return. */
  lemma ProcessFileIsRun(ds: Dataset, system: string, height: Option<real>, reading: Reading,
                         strptime: string -> Option<int>, n: Numerics, cfg: SystemConfig, ranges: seq<real>)
    requires ds.Valid() && StartTime(ds, strptime).Ok?
    requires Table(reading, system) == Ok(cfg) && RangeValues(ds, cfg.range) == Ok(ranges)
    ensures ProcessFileSpec(ds, system, height, reading, strptime, n) ==
      Run(RingFits(ds, cfg, ranges, reading, n), |ranges|, height, StartTime(ds, strptime).value)
  {
  }

  /** The ring outcomes by index are the ring fits. */
  lemma RingFitsAt(ds: Dataset, cfg: SystemConfig, ranges: seq<real>, reading: Reading, n: Numerics)
    requires ds.Valid()
    ensures forall k: nat :: k < |ranges| ==> RingFits(ds, cfg, ranges, reading, n)(k) == RingFit(ds, cfg, ranges[k], k, reading, n)
  {
  }

  /** A file whose start time, system and ranges are readable and whose
      every ring fits is processed: the result carries the start time and
      the last ring's elevations, and without a height one entry per ring. */
  lemma ProcessFileAllFit(ds: Dataset, system: string, height: Option<real>, reading: Reading,
                          strptime: string -> Option<int>, n: Numerics, cfg: SystemConfig, ranges: seq<real>)
    requires ds.Valid() && StartTime(ds, strptime).Ok?
    requires Table(reading, system) == Ok(cfg) && RangeValues(ds, cfg.range) == Ok(ranges) && |ranges| > 0
    requires forall k :: 0 <= k < |ranges| ==> RingFit(ds, cfg, ranges[k], k, reading, n).Ok?
    ensures var r := ProcessFileSpec(ds, system, height, reading, strptime, n);
      r.Ok? && r.value.date == StartTime(ds, strptime).value &&
      r.value.elev == RingFit(ds, cfg, ranges[|ranges| - 1], |ranges| - 1, reading, n).value.elev &&
      (height.None? ==> r.value.Whole? && |r.value.profile.u| == |ranges|)
  {
    ProcessFileIsRun(ds, system, height, reading, strptime, n, cfg, ranges);
    RingFitsAt(ds, cfg, ranges, reading, n);
    RunAllFit(RingFits(ds, cfg, ranges, reading, n), |ranges|, height, StartTime(ds, strptime).value);
  }
}
