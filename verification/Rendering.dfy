/** From aligned raster samples to the RGBA buffer of a tile
  * (backend/processing-svc/src/generate/rendering.rs, backend/processing-svc/src/render.rs). */
module Rendering {
  import opened Wrappers
  import opened Science

  datatype Samples = Samples(
    radiance: seq<F32>, quality: seq<F32>, cloud: Option<seq<F32>>, observationCount: Option<seq<F32>>)

  datatype RenderPixel = RenderPixel(radiance: Option<F32>, rejected: bool)

  datatype RenderError =
    | SampleCountMismatch
    | Science(error: ScienceError)
    | InvalidClassColor(colorHex: string)
    | InvalidTileSize
    | PixelCountMismatch(tileSize: nat, expected: nat, actual: nat)

  predicate Aligned(s: Samples) {
    && |s.radiance| == |s.quality|
    && (s.cloud.Some? ==> |s.cloud.value| == |s.radiance|)
    && (s.observationCount.Some? ==> |s.observationCount.value| == |s.radiance|)
  }

  function Get(samples: Option<seq<F32>>, i: nat): Option<F32> {
    if samples.Some? && i < |samples.value| then Some(samples.value[i]) else None
  }

  function ClassificationAt(m: DatasetMapping, s: Samples, i: nat): Result<Classification, ScienceError>
    requires i < |s.radiance| && i < |s.quality|
  {
    ClassifyPixelSample(m, s.radiance[i], s.quality[i], Get(s.cloud, i), Get(s.observationCount, i))
  }

  /** Sample i is the first that cannot be classified. */
  predicate FirstFailure(m: DatasetMapping, s: Samples, i: nat) {
    && i < |s.radiance| && Aligned(s) && ClassificationAt(m, s, i).Failure?
    && forall k | 0 <= k < i :: ClassificationAt(m, s, k).Success?
  }

  /** cs classifies every sample of s. */
  ghost predicate Classify(m: DatasetMapping, s: Samples, cs: seq<Classification>) {
    && Aligned(s) && |cs| == |s.radiance|
    && forall i | 0 <= i < |cs| :: ClassificationAt(m, s, i) == Success(cs[i])
  }

  /** Succeeds exactly when the samples are aligned and classify without error; the pixels then
    * carry the radiance of the renderable samples, and as many are kept as are renderable. */
  method RenderPixelsFromSamples(m: DatasetMapping, s: Samples)
    returns (r: Result<seq<RenderPixel>, RenderError>, ghost cs: seq<Classification>)
    ensures r == Failure(SampleCountMismatch) <==> !Aligned(s)
    ensures r.Failure? && r.error != SampleCountMismatch ==>
      exists i :: FirstFailure(m, s, i) && r.error == Science(ClassificationAt(m, s, i).error)
    ensures r.Success? ==>
      && Classify(m, s, cs)
      && |r.value| == |cs|
      && (forall i | 0 <= i < |cs| ::
            if IsRenderableSample(cs[i])
            then r.value[i] == RenderPixel(Some(s.radiance[i]), false)
            else r.value[i] == RenderPixel(None, true))
      && |Filter(r.value, (p: RenderPixel) => !p.rejected)| == |Filter(cs, IsRenderableSample)|
  {
    hide ClassificationAt, Filter, IsRenderableSample;
    cs := [];
    if !Aligned(s) {
      return Failure(SampleCountMismatch), cs;
    }
    ghost var kept := (p: RenderPixel) => !p.rejected;
    var pixels: seq<RenderPixel> := [];
    FilterOfNothing(pixels, kept);
    FilterOfNothing(cs, IsRenderableSample);
    for i := 0 to |s.radiance|
      invariant |pixels| == |cs| == i
      invariant forall k | 0 <= k < i :: ClassificationAt(m, s, k) == Success(cs[k])
      invariant forall k | 0 <= k < i ::
                  if IsRenderableSample(cs[k])
                  then pixels[k] == RenderPixel(Some(s.radiance[k]), false)
                  else pixels[k] == RenderPixel(None, true)
      invariant |Filter(pixels, kept)| == |Filter(cs, IsRenderableSample)|
    {
      var c := ClassificationAt(m, s, i);
      if c.Failure? {
        assert FirstFailure(m, s, i);
        return Failure(Science(c.error)), cs;
      }
      var rejected := !IsRenderableSample(c.value);
      var pixel := RenderPixel(if rejected then None else Some(s.radiance[i]), rejected);
      FilterAppends(pixels, pixel, kept);
      FilterAppends(cs, c.value, IsRenderableSample);
      pixels := pixels + [pixel];
      cs := cs + [c.value];
    }
    return Success(pixels), cs;
  }

  // --------------------------------------------------------------------------------- colours

  datatype Rgba = Rgba(red: nat, green: nat, blue: nat, alpha: nat)

  const TRANSPARENT := Rgba(0, 0, 0, 0)

  function HexDigit(c: char): Option<nat> {
    if '0' <= c <= '9' then Some(c as int - '0' as int)
    else if 'a' <= c <= 'f' then Some(c as int - 'a' as int + 10)
    else if 'A' <= c <= 'F' then Some(c as int - 'A' as int + 10)
    else None
  }

  /** Two hexadecimal characters as a byte; the standard parser also takes a leading plus sign. */
  function ParseHexByte(s: string): Option<nat>
    requires |s| == 2
  {
    var low := HexDigit(s[1]);
    var high := if s[0] == '+' then Some(0) else HexDigit(s[0]);
    if high.Some? && low.Some? then Some(high.value * 16 + low.value) else None
  }

  function ParseColorHex(hex: string): Result<(nat, nat, nat), RenderError> {
    if |hex| != 7 || hex[0] != '#' then Failure(InvalidClassColor(hex))
    else
      var r, g, b := ParseHexByte(hex[1..3]), ParseHexByte(hex[3..5]), ParseHexByte(hex[5..7]);
      if r.Some? && g.Some? && b.Some? then Success((r.value, g.value, b.value))
      else Failure(InvalidClassColor(hex))
  }

  function RenderPixelColor(p: RenderPixel): Result<Rgba, RenderError> {
    if p.rejected || p.radiance.None? then Success(TRANSPARENT)
    else
      match ClassifyDarkSky(p.radiance.value)
      case None => Success(TRANSPARENT)
      case Some(c) =>
        var rgb :- ParseColorHex(c.colorHex);
        Success(Rgba(rgb.0, rgb.1, rgb.2, 255))
  }

  /** The colours of the class table as bytes. */
  const CLASS_COLORS: seq<(nat, nat, nat)> := [
    (5, 7, 13), (16, 32, 63), (31, 63, 117), (47, 111, 115), (98, 163, 92),
    (182, 179, 75), (217, 130, 43), (214, 74, 47), (242, 239, 232)
  ]

  /** Every colour of the class table parses, to the colour listed for its class. */
  lemma ClassColorsParse(i: nat)
    requires i < |DARK_SKY_CLASSES|
    ensures DARK_SKY_CLASSES[i].classNumber == i + 1
    ensures ParseColorHex(DARK_SKY_CLASSES[i].colorHex) == Success(CLASS_COLORS[i])
  {
    hide ParseColorHex;
    var t := DARK_SKY_CLASSES;
    assert |t| == 9;
    if i == 0 {
      ParsesTo(t[0].colorHex, 0, 5, 0, 7, 0, 13);
    } else if i == 1 {
      ParsesTo(t[1].colorHex, 1, 0, 2, 0, 3, 15);
    } else if i == 2 {
      ParsesTo(t[2].colorHex, 1, 15, 3, 15, 7, 5);
    } else if i == 3 {
      ParsesTo(t[3].colorHex, 2, 15, 6, 15, 7, 3);
    } else if i == 4 {
      ParsesTo(t[4].colorHex, 6, 2, 10, 3, 5, 12);
    } else if i == 5 {
      ParsesTo(t[5].colorHex, 11, 6, 11, 3, 4, 11);
    } else if i == 6 {
      ParsesTo(t[6].colorHex, 13, 9, 8, 2, 2, 11);
    } else if i == 7 {
      ParsesTo(t[7].colorHex, 13, 6, 4, 10, 2, 15);
    } else {
      ParsesTo(t[8].colorHex, 15, 2, 14, 15, 14, 8);
    }
  }

  lemma ParsesTo(hex: string, a: nat, b: nat, c: nat, d: nat, e: nat, f: nat)
    requires |hex| == 7 && hex[0] == '#'
    requires HexDigit(hex[1]) == Some(a) && HexDigit(hex[2]) == Some(b) && HexDigit(hex[3]) == Some(c)
    requires HexDigit(hex[4]) == Some(d) && HexDigit(hex[5]) == Some(e) && HexDigit(hex[6]) == Some(f)
    ensures ParseColorHex(hex) == Success((a * 16 + b, c * 16 + d, e * 16 + f))
  {
    assert hex[1..3] == [hex[1], hex[2]] && hex[3..5] == [hex[3], hex[4]] && hex[5..7] == [hex[5], hex[6]];
  }

  /** Opaque in the colour of the class that contains its radiance, for a kept pixel of finite
    * radiance from zero up; fully transparent for every other pixel; never an error. */
  lemma PixelColorIsClassColor(p: RenderPixel) returns (i: nat)
    ensures RenderPixelColor(p).Success?
    ensures !p.rejected && p.radiance.Some? && p.radiance.value.Finite? && 0.0 <= p.radiance.value.v ==>
      && i < |DARK_SKY_CLASSES| && Contains(DARK_SKY_CLASSES[i], p.radiance.value.v)
      && RenderPixelColor(p).value == Rgba(CLASS_COLORS[i].0, CLASS_COLORS[i].1, CLASS_COLORS[i].2, 255)
    ensures !(!p.rejected && p.radiance.Some? && p.radiance.value.Finite? && 0.0 <= p.radiance.value.v) ==>
      RenderPixelColor(p).value == TRANSPARENT
  {
    i := 0;
    if !p.rejected && p.radiance.Some? {
      ClassIsTheOnlyContainingOne(p.radiance.value);
      if ClassifyDarkSky(p.radiance.value).Some? {
        i :| 0 <= i < |DARK_SKY_CLASSES| && DARK_SKY_CLASSES[i] == ClassifyDarkSky(p.radiance.value).value;
        ClassColorsParse(i);
      }
    }
  }

  /** Two pixels of the same colour other than transparent show the same class. */
  lemma ColorsTellClassesApart(i: nat, j: nat)
    requires i < |CLASS_COLORS| && j < |CLASS_COLORS| && CLASS_COLORS[i] == CLASS_COLORS[j]
    ensures i == j
  {
    var c := CLASS_COLORS;
    assert c[i].0 == c[j].0;
  }

  /** Fills the buffer with four bytes per pixel, row by row as the pixels come. */
  method RenderPngTile(tileSize: nat, pixels: seq<RenderPixel>) returns (r: Result<seq<nat>, RenderError>)
    ensures tileSize == 0 ==> r == Failure(InvalidTileSize)
    ensures tileSize != 0 && |pixels| != tileSize * tileSize ==>
      r == Failure(PixelCountMismatch(tileSize, tileSize * tileSize, |pixels|))
    ensures tileSize != 0 && |pixels| == tileSize * tileSize ==>
      && r.Success? && |r.value| == 4 * |pixels|
      && forall k | 0 <= k < |pixels| ::
           RenderPixelColor(pixels[k])
           == Success(Rgba(r.value[4 * k], r.value[4 * k + 1], r.value[4 * k + 2], r.value[4 * k + 3]))
  {
    if tileSize == 0 {
      return Failure(InvalidTileSize);
    }
    var expected := tileSize * tileSize;
    if |pixels| != expected {
      return Failure(PixelCountMismatch(tileSize, expected, |pixels|));
    }
    hide RenderPixelColor;
    var rgba: seq<nat> := [];
    for i := 0 to |pixels|
      invariant |rgba| == 4 * i
      invariant forall k | 0 <= k < i ::
                  RenderPixelColor(pixels[k])
                  == Success(Rgba(rgba[4 * k], rgba[4 * k + 1], rgba[4 * k + 2], rgba[4 * k + 3]))
    {
      var color := RenderPixelColor(pixels[i]);
      ghost var _ := PixelColorIsClassColor(pixels[i]);
      rgba := rgba + [color.value.red, color.value.green, color.value.blue, color.value.alpha];
    }
    return Success(rgba);
  }
}
