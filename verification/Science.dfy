/** Pixel classification, quality summary and dark-sky classes
  * (backend/processing-svc/src/science/, backend/shared/src/dark_sky.rs). */
module Science {
  import opened Wrappers
  import SlippyTiles

  // ------------------------------------------------------------------------- sample values

  /** A 32-bit float: an exact real, or one of the values that are not numbers on the real line. */
  datatype F32 = Finite(v: real) | NaN | PosInf | NegInf

  predicate Equal(a: F32, b: F32) {
    a == b && a != NaN
  }

  predicate Less(a: F32, b: F32) {
    match (a, b)
    case (Finite(x), Finite(y)) => x < y
    case (NegInf, Finite(_)) => true
    case (NegInf, PosInf) => true
    case (Finite(_), PosInf) => true
    case _ => false
  }

  datatype Dataset = Quality | Cloud | ObservationCount
  datatype ScienceError = InvalidIntegerSample(dataset: Dataset, value: F32)

  function Whole(n: nat): F32 {
    Finite(n as real)
  }

  function SampleValueAsU16(dataset: Dataset, value: F32): (r: Result<nat, ScienceError>)
    ensures r.Success? ==> r.value <= 0xFFFF && value == Whole(r.value)
    ensures r.Failure? ==> r.error == InvalidIntegerSample(dataset, value)
    ensures r.Failure? ==> forall n: nat | n <= 0xFFFF :: value != Whole(n)
  {
    if !value.Finite? || value.v < 0.0 || value.v.Floor as real != value.v || value.v > 65535.0 then
      Failure(InvalidIntegerSample(dataset, value))
    else
      Success(value.v.Floor)
  }

  // ------------------------------------------------------------------------- classification

  datatype Cadence = Daily | Monthly
  datatype DatasetMapping = DatasetMapping(
    cadence: Cadence, hasCloud: bool, hasObservationCount: bool, fillValue: F32, validMin: F32)

  datatype PixelQuality = Valid | Invalid

  datatype Classification = Classification(
    radianceQuality: PixelQuality,
    qualityMaskQuality: PixelQuality,
    qualitySample: nat,
    cloudContaminated: Option<bool>,
    observationCountSample: Option<nat>)

  function ClassifyRadiance(m: DatasetMapping, radiance: F32): PixelQuality {
    if Equal(radiance, m.fillValue) || Less(radiance, m.validMin) then Invalid else Valid
  }

  function ClassifyDailyQuality(flag: nat): PixelQuality {
    if flag == 0 then Valid else Invalid
  }

  function ClassifyMonthlyQuality(flag: nat): PixelQuality {
    if flag == 0 || flag == 2 then Valid else Invalid
  }

  /** Bits six and seven of the mask are the cloud-detection confidence; two and three are cloudy. */
  function IsCloudContaminated(mask: nat): bool {
    mask / 64 % 4 == 2 || mask / 64 % 4 == 3
  }

  function ClassifyPixelSample(m: DatasetMapping, radiance: F32, quality: F32,
                               cloud: Option<F32>, observationCount: Option<F32>)
    : Result<Classification, ScienceError>
  {
    var qualitySample :- SampleValueAsU16(Quality, quality);
    var flag := Min(qualitySample, 255);
    var mask := if m.cadence == Daily then ClassifyDailyQuality(flag) else ClassifyMonthlyQuality(flag);
    var cloudSample :- if m.hasCloud && cloud.Some?
                       then Presence(SampleValueAsU16(Cloud, cloud.value)) else Success(None);
    var contaminated := if cloudSample.Some? then Some(IsCloudContaminated(cloudSample.value)) else None;
    var count :- if m.hasObservationCount && observationCount.Some?
                 then Presence(SampleValueAsU16(ObservationCount, observationCount.value)) else Success(None);
    Success(Classification(ClassifyRadiance(m, radiance), mask, qualitySample, contaminated, count))
  }

  function Presence(r: Result<nat, ScienceError>): Result<Option<nat>, ScienceError> {
    var n :- r;
    Success(Some(n))
  }

  predicate IsValid(c: Classification) {
    c.radianceQuality == Valid && c.qualityMaskQuality == Valid
  }

  predicate IsCloudyValid(c: Classification) {
    IsValid(c) && c.cloudContaminated == Some(true)
  }

  predicate IsRenderableSample(c: Classification) {
    c.radianceQuality == Valid && c.qualityMaskQuality == Valid && c.cloudContaminated != Some(true)
  }

  // ----------------------------------------------------------------------- quality summary

  datatype QualitySummary = QualitySummary(
    totalPixelCount: nat, validPixelCount: nat, rejectedPixelCount: nat,
    cloudContaminatedValidPixelCount: nat, cloudFraction: real)

  /** The members of s that satisfy p, in order. */
  function Filter<T>(s: seq<T>, p: T -> bool): seq<T> {
    if |s| == 0 then []
    else
      var prior := Filter(s[..|s| - 1], p);
      if p(s[|s| - 1]) then prior + [s[|s| - 1]] else prior
  }

  lemma ProperFraction(part: nat, whole: nat)
    requires part <= whole && 0 < whole
    ensures 0.0 <= part as real / whole as real <= 1.0
    ensures (part as real / whole as real) * whole as real == part as real
  {
    var p, w := part as real, whole as real;
    assert (p / w) * w == p;
    SlippyTiles.ScaleOrder(1.0, p / w, w);
    SlippyTiles.ScaleOrder(p / w, 0.0, w);
  }

  lemma FilterOfNothing<T>(s: seq<T>, p: T -> bool)
    requires s == []
    ensures Filter(s, p) == []
  {}

  lemma FilterExtends<T>(s: seq<T>, i: nat, p: T -> bool)
    requires i < |s|
    ensures |Filter(s[..i + 1], p)| == |Filter(s[..i], p)| + if p(s[i]) then 1 else 0
  {
    assert s[..i + 1][..i] == s[..i];
  }

  lemma FilterAppends<T>(s: seq<T>, x: T, p: T -> bool)
    ensures |Filter(s + [x], p)| == |Filter(s, p)| + if p(x) then 1 else 0
  {
    assert (s + [x])[..|s|] == s;
  }

  /** A tile made from the same samples shows exactly the valid pixels that are not cloudy. */
  lemma {:induction false} RenderableAreValidNotCloudy(cs: seq<Classification>)
    ensures |Filter(cs, IsRenderableSample)| == |Filter(cs, IsValid)| - |Filter(cs, IsCloudyValid)|
  {
    if cs != [] {
      RenderableAreValidNotCloudy(cs[..|cs| - 1]);
    }
  }

  method SummarizeQuality(cs: seq<Classification>) returns (q: QualitySummary)
    ensures q.totalPixelCount == |cs|
    ensures q.validPixelCount == |Filter(cs, IsValid)|
    ensures q.cloudContaminatedValidPixelCount == |Filter(cs, IsCloudyValid)|
    ensures q.validPixelCount + q.rejectedPixelCount == |cs|
    ensures 0.0 <= q.cloudFraction <= 1.0
    ensures q.cloudFraction * q.validPixelCount as real == q.cloudContaminatedValidPixelCount as real
    ensures q.validPixelCount == 0 ==> q.cloudFraction == 0.0
    ensures |Filter(cs, IsRenderableSample)| == q.validPixelCount - q.cloudContaminatedValidPixelCount
  {
    hide Filter;
    var valid: nat, cloudy: nat := 0, 0;
    assert |Filter(cs[..0], IsValid)| == |Filter(cs[..0], IsCloudyValid)| == 0 by {
      FilterOfNothing(cs[..0], IsValid);
      FilterOfNothing(cs[..0], IsCloudyValid);
    }
    for i := 0 to |cs|
      invariant cloudy <= valid <= i
      invariant valid == |Filter(cs[..i], IsValid)| && cloudy == |Filter(cs[..i], IsCloudyValid)|
    {
      FilterExtends(cs, i, IsValid);
      FilterExtends(cs, i, IsCloudyValid);
      if cs[i].radianceQuality == Valid && cs[i].qualityMaskQuality == Valid {
        valid := valid + 1;
        if cs[i].cloudContaminated == Some(true) {
          cloudy := cloudy + 1;
        }
      }
    }
    assert cs[..|cs|] == cs;
    RenderableAreValidNotCloudy(cs);
    var fraction := if valid == 0 then 0.0 else cloudy as real / valid as real;
    if valid > 0 {
      ProperFraction(cloudy, valid);
    }
    q := QualitySummary(|cs|, valid, |cs| - valid, cloudy, fraction);
  }

  // ----------------------------------------------------------------------- dark-sky classes

  datatype DarkSkyClass = DarkSkyClass(
    classNumber: nat, colorHex: string, minRadiance: real, maxRadianceExclusive: Option<real>)

  const DARK_SKY_CLASSES: seq<DarkSkyClass> := [
    DarkSkyClass(1, "#05070d", 0.0, Some(0.2)),
    DarkSkyClass(2, "#10203f", 0.2, Some(0.4)),
    DarkSkyClass(3, "#1f3f75", 0.4, Some(1.0)),
    DarkSkyClass(4, "#2f6f73", 1.0, Some(3.0)),
    DarkSkyClass(5, "#62a35c", 3.0, Some(6.0)),
    DarkSkyClass(6, "#b6b34b", 6.0, Some(12.0)),
    DarkSkyClass(7, "#d9822b", 12.0, Some(25.0)),
    DarkSkyClass(8, "#d64a2f", 25.0, Some(50.0)),
    DarkSkyClass(9, "#f2efe8", 50.0, None)
  ]

  predicate Contains(c: DarkSkyClass, radiance: real) {
    radiance >= c.minRadiance && (c.maxRadianceExclusive.Some? ==> radiance < c.maxRadianceExclusive.value)
  }

  function Find(classes: seq<DarkSkyClass>, radiance: real): Option<DarkSkyClass> {
    if |classes| == 0 then None
    else if Contains(classes[0], radiance) then Some(classes[0])
    else Find(classes[1..], radiance)
  }

  function ClassifyDarkSky(radiance: F32): Option<DarkSkyClass> {
    if !radiance.Finite? || radiance.v < 0.0 then None else Find(DARK_SKY_CLASSES, radiance.v)
  }

  /** Each class begins where the one before it ends, and the last one has no end. */
  ghost predicate Contiguous(classes: seq<DarkSkyClass>) {
    && |classes| > 0
    && classes[|classes| - 1].maxRadianceExclusive == None
    && forall i | 0 <= i < |classes| - 1 ::
         && classes[i].maxRadianceExclusive == Some(classes[i + 1].minRadiance)
         && classes[i].minRadiance < classes[i + 1].minRadiance
         && classes[i].classNumber < classes[i + 1].classNumber
  }

  lemma TableIsContiguous()
    ensures Contiguous(DARK_SKY_CLASSES) && DARK_SKY_CLASSES[0].minRadiance == 0.0
  {
    var t := DARK_SKY_CLASSES;
    assert |t| == 9;
    forall i | 0 <= i < 8
      ensures t[i].maxRadianceExclusive == Some(t[i + 1].minRadiance)
      ensures t[i].minRadiance < t[i + 1].minRadiance && t[i].classNumber < t[i + 1].classNumber
    {
      if i < 4 {
        assert i == 0 || i == 1 || i == 2 || i == 3;
      } else {
        assert i == 4 || i == 5 || i == 6 || i == 7;
      }
    }
  }

  lemma {:induction false} LaterClassesAreHigher(classes: seq<DarkSkyClass>, i: nat, j: nat)
    requires Contiguous(classes) && i < j < |classes|
    ensures classes[i].minRadiance < classes[j].minRadiance && classes[i].classNumber < classes[j].classNumber
    ensures classes[i].maxRadianceExclusive.Some?
            && classes[i].maxRadianceExclusive.value <= classes[j].minRadiance
    decreases j
  {
    if i + 1 < j {
      LaterClassesAreHigher(classes, i, j - 1);
    }
  }

  lemma {:induction false} FindsAContainingClass(classes: seq<DarkSkyClass>, radiance: real) returns (i: nat)
    requires Contiguous(classes) && classes[0].minRadiance <= radiance
    ensures i < |classes| && Find(classes, radiance) == Some(classes[i]) && Contains(classes[i], radiance)
  {
    if Contains(classes[0], radiance) {
      i := 0;
    } else {
      var rest := classes[1..];
      assert forall k | 0 <= k < |rest| :: rest[k] == classes[k + 1];
      i := FindsAContainingClass(rest, radiance);
      i := i + 1;
    }
  }

  /** Exactly the finite radiances from zero up have a class, and it is the one class of the
    * table whose interval contains the radiance. */
  lemma ClassIsTheOnlyContainingOne(radiance: F32)
    ensures ClassifyDarkSky(radiance).Some? <==> radiance.Finite? && 0.0 <= radiance.v
    ensures ClassifyDarkSky(radiance).Some? ==>
      var c := ClassifyDarkSky(radiance).value;
      && c in DARK_SKY_CLASSES && Contains(c, radiance.v)
      && forall d <- DARK_SKY_CLASSES :: Contains(d, radiance.v) ==> d == c
  {
    if radiance.Finite? && 0.0 <= radiance.v {
      TableIsContiguous();
      var t := DARK_SKY_CLASSES;
      var i := FindsAContainingClass(t, radiance.v);
      forall j | 0 <= j < |t| && Contains(t[j], radiance.v) ensures j == i {
        if i < j { LaterClassesAreHigher(t, i, j); }
        if j < i { LaterClassesAreHigher(t, j, i); }
      }
    }
  }

  /** Brighter pixels never get a lower class. */
  lemma ClassIsMonotone(a: real, b: real)
    requires 0.0 <= a <= b
    ensures ClassifyDarkSky(Finite(a)).Some? && ClassifyDarkSky(Finite(b)).Some?
    ensures ClassifyDarkSky(Finite(a)).value.classNumber <= ClassifyDarkSky(Finite(b)).value.classNumber
  {
    TableIsContiguous();
    var t := DARK_SKY_CLASSES;
    var i := FindsAContainingClass(t, a);
    var j := FindsAContainingClass(t, b);
    if j < i {
      LaterClassesAreHigher(t, j, i);
    } else if i < j {
      LaterClassesAreHigher(t, i, j);
    }
  }
}
