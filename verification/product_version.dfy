/**
  The host-product version gate. Each version triple is packed into one scalar
  key, `major·10^10 + tenths·10^6 + build`, and the product passes when its key
  is at least the required key.

  The two sides are not encoded alike: the product's minor is rounded to tenths
  with Python's `int(0.5 + minor*10)` (truncation toward zero), while the
  required minor is scaled raw (`minor*10^7`). Python evaluates both keys in
  floating point; here they are exact reals.
 */
module ProductVersion {

  /** The product information record handed in by the host application. */
  datatype ProductInfo = ProductInfo(major: int, minor: real, build: int)

  /** Weight of one major release in the packed key. */
  const MajorWeight: int := 10_000_000_000

  /** Weight of one tenth of a minor release in the packed key. */
  const TenthWeight: int := 1_000_000

  /** Upper bound (exclusive) on builds that do not bleed into the tenths digit. */
  const BuildLimit: int := 1_000_000

  /** Upper bound (exclusive) on tenths that do not bleed into the major digit. */
  const TenthsLimit: int := 10_000

  /** Python's `int()` applied to a float: truncation toward zero. */
  function Trunc(x: real): (n: int)
    ensures 0.0 <= x ==> n as real <= x < n as real + 1.0
    ensures x < 0.0 ==> n as real - 1.0 < x <= n as real
  {
    if x >= 0.0 then x.Floor else -((-x).Floor)
  }

  /** The product minor rounded to tenths, as `int(0.5 + minor*10)` computes it. */
  function RoundTenths(minor: real): (t: int)
    ensures 0.0 <= minor ==> t as real - 0.5 <= minor * 10.0 < t as real + 0.5
    ensures minor * 10.0 + 0.5 < 0.0 ==> minor * 10.0 + 0.5 <= t as real < minor * 10.0 + 1.5
  {
    Trunc(0.5 + minor * 10.0)
  }

  /** The packed key of the product side. */
  function ProductKey(p: ProductInfo): real {
    (p.major * MajorWeight + RoundTenths(p.minor) * TenthWeight + p.build) as real
  }

  /** The packed key of the required side; its minor is scaled without rounding. */
  function RequiredKey(major: int, minor: real, build: int): real {
    (major * MajorWeight) as real + minor * 10_000_000.0 + build as real
  }

  /**
    True iff the product version is at least the required (major, minor, build).
    Within the bounds where the packed key does not overflow a digit, and for a
    required minor in whole tenths, this is the lexicographic order.
   */
  function IsProductVersionOK(p: ProductInfo, major: int, minor: real, build: int): (ok: bool)
    ensures var t := (minor * 10.0).Floor;
      (&& 0 <= p.build < BuildLimit && 0 <= build < BuildLimit
       && 0 <= RoundTenths(p.minor) < TenthsLimit && 0 <= t < TenthsLimit
       && t as real == minor * 10.0)
      ==> (ok <==> LexAtLeast(p.major, RoundTenths(p.minor), p.build, major, t, build))
  {
    ProductKey(p) >= RequiredKey(major, minor, build)
  }

  /** Lexicographic "at least" on (major, tenths, build) triples: the intended order. */
  predicate LexAtLeast(major: int, tenths: int, build: int, reqMajor: int, reqTenths: int, reqBuild: int) {
    || major > reqMajor
    || (major == reqMajor && tenths > reqTenths)
    || (major == reqMajor && tenths == reqTenths && build >= reqBuild)
  }

  /** For a non-negative minor the rounding is round-half-up to the nearest tenth. */
  lemma RoundTenthsIsNearestHalfUp(minor: real)
    requires 0.0 <= minor
    ensures RoundTenths(minor) as real - 0.5 <= minor * 10.0 < RoundTenths(minor) as real + 0.5
    ensures RoundTenths(minor) == (minor * 10.0 + 0.5).Floor
  {
  }

  /** A minor that is already a whole number of tenths is left unchanged by the rounding. */
  lemma RoundTenthsExact(minor: real, tenths: int)
    requires 0 <= tenths
    requires minor * 10.0 == tenths as real
    ensures RoundTenths(minor) == tenths
  {
    assert 0.5 + minor * 10.0 == tenths as real + 0.5;
  }

  /** Rounding is monotone in the minor. */
  lemma RoundTenthsMonotone(minor: real, minor': real)
    requires minor <= minor'
    ensures RoundTenths(minor) <= RoundTenths(minor')
  {
  }

  /** Reflexivity: a product whose minor is a non-negative whole number of tenths meets its own version. */
  lemma VersionReflexiveAtTenths(p: ProductInfo, tenths: int)
    requires 0 <= tenths
    requires p.minor * 10.0 == tenths as real
    ensures IsProductVersionOK(p, p.major, p.minor, p.build)
  {
    RoundTenthsExact(p.minor, tenths);
    assert p.minor * 10_000_000.0 == (tenths * TenthWeight) as real;
  }

  /**
    A product meets its own version exactly when the product-side rounding does
    not lower its minor below the raw tenths the required side uses.
   */
  lemma VersionReflexiveIffRoundsUp(p: ProductInfo)
    ensures IsProductVersionOK(p, p.major, p.minor, p.build) <==> RoundTenths(p.minor) as real >= p.minor * 10.0
  {
    assert RequiredKey(p.major, p.minor, p.build) - ProductKey(p)
        == (p.minor * 10.0 - RoundTenths(p.minor) as real) * 1_000_000.0;
  }

  /** A negative minor always meets itself: truncating toward zero rounds it up. */
  lemma NegativeMinorReflexive(p: ProductInfo)
    requires p.minor < 0.0
    ensures IsProductVersionOK(p, p.major, p.minor, p.build)
  {
    VersionReflexiveIffRoundsUp(p);
  }

  /** Reflexivity for every integer minor. */
  lemma VersionReflexive(p: ProductInfo, m: int)
    requires p.minor == m as real
    ensures IsProductVersionOK(p, p.major, p.minor, p.build)
  {
    if m >= 0 {
      VersionReflexiveAtTenths(p, 10 * m);
    } else {
      NegativeMinorReflexive(p);
    }
  }

  /** Product 10.3 build 1000 meets 10.3 build 999 and does not meet 10.4 build 0. */
  lemma VersionExamples()
    ensures IsProductVersionOK(ProductInfo(10, 3.0, 1000), 10, 3.0, 999)
    ensures !IsProductVersionOK(ProductInfo(10, 3.0, 1000), 10, 4.0, 0)
  {
    RoundTenthsExact(3.0, 30);
  }

  /**
    Because only the product side is rounded, a required minor that is not a
    whole number of tenths is not met by a product reporting that very minor,
    and a product minor of 3.15 is read as 3.2.
   */
  lemma RoundingAsymmetryExamples()
    ensures !IsProductVersionOK(ProductInfo(10, 3.14, 0), 10, 3.14, 0)
    ensures IsProductVersionOK(ProductInfo(10, 3.15, 0), 10, 3.2, 0)
  {
    RoundTenthsExact(3.1, 31);
    RoundTenthsExact(3.2, 32);
    assert RoundTenths(3.14) == 31;
    assert RoundTenths(3.15) == 32;
  }

  /** Lowering any component of the requirement never turns a pass into a fail. */
  lemma LoweringRequirementKeepsPass(p: ProductInfo, major: int, minor: real, build: int,
                                     major': int, minor': real, build': int)
    requires IsProductVersionOK(p, major, minor, build)
    requires major' <= major && minor' <= minor && build' <= build
    ensures IsProductVersionOK(p, major', minor', build')
  {
  }

  /** Raising any component of the product never turns a pass into a fail. */
  lemma RaisingProductKeepsPass(p: ProductInfo, q: ProductInfo, major: int, minor: real, build: int)
    requires IsProductVersionOK(p, major, minor, build)
    requires p.major <= q.major && p.minor <= q.minor && p.build <= q.build
    ensures IsProductVersionOK(q, major, minor, build)
  {
    RoundTenthsMonotone(p.minor, q.minor);
  }

  /**
    With builds below 10^6 and tenths below 10^4 on both sides, and a required
    minor that is a whole number of tenths, the packed-key comparison is exactly
    the lexicographic order on (major, tenths, build).
   */
  lemma VersionOrderIsLexicographic(p: ProductInfo, major: int, tenths: int, build: int)
    requires 0 <= p.build < BuildLimit && 0 <= build < BuildLimit
    requires 0 <= RoundTenths(p.minor) < TenthsLimit && 0 <= tenths < TenthsLimit
    ensures IsProductVersionOK(p, major, tenths as real / 10.0, build)
        <==> LexAtLeast(p.major, RoundTenths(p.minor), p.build, major, tenths, build)
  {
    var t := RoundTenths(p.minor);
    assert RequiredKey(major, tenths as real / 10.0, build)
        == (major * MajorWeight + tenths * TenthWeight + build) as real;
    var low := t * TenthWeight + p.build;
    var reqLow := tenths * TenthWeight + build;
    assert 0 <= low < MajorWeight && 0 <= reqLow < MajorWeight;
    if p.major == major && t != tenths {
      assert t > tenths <==> low > reqLow;
    }
  }
}
