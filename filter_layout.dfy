/** The layout of the denoising filter buffer that denoise_fill_buffer
    builds: `passes` planes of `frames` frames of a padded w × h image,
    flattened as pass, then frame, then row, then column; the tables that
    route render-buffer passes into it; and what each final pass holds. */
module FilterLayout {
  import opened Wrappers
  import opened Geometry


  // ---------------------------------------------------------------------
  // Sizes and the flat index

  /** 28 passes with cross denoising, 22 without. */
  function PassCount(cross: bool): nat {
    if cross then 28 else 22
  }

  /** pass_stride of denoise_fill_buffer: one pass holds every frame, each a
      w × h image, so the last frame's image ends exactly where the next pass
      begins. */
  function PassStride(w: int, h: int, frames: int): (s: int)
    ensures w >= 0 && h >= 0 && frames >= 0 ==> s >= 0
    ensures frames >= 1 ==> s == w * h * (frames - 1) + w * h
  {
    w * h * frames
  }

  /** Offset of pixel (x, y) of frame fr of pass p:
      PASSPTR(p) = filter_buffer + p*pass_stride, frame base w*h*fr, row-major
      pixel y*w + x. A pixel of a frame of pass p lies between PASSPTR(p) and
      PASSPTR(p + 1). */
  function FilterIndex(p: int, fr: int, x: int, y: int, w: int, h: int, frames: int): (i: int)
    ensures InFrame(x, y, w, h) && 0 <= fr < frames ==>
      p * PassStride(w, h, frames) <= i < (p + 1) * PassStride(w, h, frames)
  {
    var i := p * PassStride(w, h, frames) + w * h * fr + y * w + x;
    assert InFrame(x, y, w, h) && 0 <= fr < frames ==>
      p * PassStride(w, h, frames) <= i < (p + 1) * PassStride(w, h, frames) by {
      if InFrame(x, y, w, h) && 0 <= fr < frames {
        DigitBound(y, x, w, h);
        DigitBound(fr, y * w + x, w * h, frames);
        assert w * h * fr == fr * (w * h) && PassStride(w, h, frames) == frames * (w * h);
      }
    }
    i
  }

  /** The same offset read as nested mixed-radix digits. */
  lemma FilterIndexNested(p: int, fr: int, x: int, y: int, w: int, h: int, frames: int)
    ensures FilterIndex(p, fr, x, y, w, h, frames) == ((p * frames + fr) * h + y) * w + x
  {
    assert p * (w * h * frames) == (p * frames) * h * w;
    assert w * h * fr == fr * h * w;
    assert ((p * frames + fr) * h + y) * w == (p * frames) * h * w + fr * h * w + y * w;
  }

  /** Decoding a flat offset back to (pass, frame, row, column). */
  function FilterCoordinates(i: int, w: int, h: int, frames: int): (c: (int, int, int, int))
    requires w > 0 && h > 0 && frames > 0
  {
    (i / w / h / frames, i / w / h % frames, i / w % h, i % w)
  }

  /** Every in-range (pass, frame, pixel) has an offset inside the
      passes * pass_stride floats allocated, and the offset decodes back to
      it, so no two of them share a float. */
  lemma FilterIndexRoundTrip(passes: int, p: int, fr: int, x: int, y: int, width: int, h: int, frames: int)
    requires 0 <= p < passes && 0 <= fr < frames
    requires InFrame(x, y, width, h)
    ensures var w := AlignUp4(width);
      0 <= FilterIndex(p, fr, x, y, w, h, frames) < passes * PassStride(w, h, frames) &&
      FilterCoordinates(FilterIndex(p, fr, x, y, w, h, frames), w, h, frames) == (p, fr, y, x)
  {
    var w := AlignUp4(width);
    FilterIndexNested(p, fr, x, y, w, h, frames);
    var plane := p * frames + fr;
    var row := plane * h + y;
    var i := row * w + x;
    assert FilterIndex(p, fr, x, y, w, h, frames) == i;
    NestedBound(passes, p, fr, x, y, w, h, frames);
    DivModOf(row, x, w);
    DivModOf(plane, y, h);
    DivModOf(p, fr, frames);
  }

  /** The nested offset stays below passes * frames * h * w. */
  lemma NestedBound(passes: int, p: int, fr: int, x: int, y: int, w: int, h: int, frames: int)
    requires 0 <= p < passes && 0 <= fr < frames && 0 <= x < w && 0 <= y < h
    ensures 0 <= ((p * frames + fr) * h + y) * w + x < passes * PassStride(w, h, frames)
  {
    var planes := passes * frames;
    var rows := planes * h;
    var plane := p * frames + fr;
    var row := plane * h + y;
    DigitBound(p, fr, frames, passes);
    DigitBound(plane, y, h, planes);
    DigitBound(row, x, w, rows);
    assert rows * w == passes * PassStride(w, h, frames) by {
      assert rows * w == passes * (frames * h * w);
      assert frames * h * w == w * h * frames;
    }
  }

  // ---------------------------------------------------------------------
  // What the passes hold

  /** The denoising features. Cross denoising adds a second set of colour
      passes (render-buffer passes 26-31). */
  datatype Feature =
    | NormalX | NormalY | NormalZ | Depth | Shadow
    | AlbedoR | AlbedoG | AlbedoB
    | ColorR | ColorG | ColorB
    | CrossColorR | CrossColorG | CrossColorB

  /** A feature's mean or its variance. */
  datatype Output = Output(feature: Feature, variance: bool)

  /** Which feature's mean render-buffer pass q holds: normal 0-2, albedo
      6-8, depth 12, colour 20-22 and the cross-denoising colour 26-28. */
  function RenderMean(q: int): Option<Feature> {
    match q
    case 0 => Some(NormalX)
    case 1 => Some(NormalY)
    case 2 => Some(NormalZ)
    case 6 => Some(AlbedoR)
    case 7 => Some(AlbedoG)
    case 8 => Some(AlbedoB)
    case 12 => Some(Depth)
    case 20 => Some(ColorR)
    case 21 => Some(ColorG)
    case 22 => Some(ColorB)
    case 26 => Some(CrossColorR)
    case 27 => Some(CrossColorG)
    case 28 => Some(CrossColorB)
    case _ => None
  }

  /** Which feature's variance render-buffer pass q holds: normal 3-5,
      albedo 9-11, depth 13, colour 23-25 and 29-31. */
  function RenderVariance(q: int): Option<Feature> {
    match q
    case 3 => Some(NormalX)
    case 4 => Some(NormalY)
    case 5 => Some(NormalZ)
    case 9 => Some(AlbedoR)
    case 10 => Some(AlbedoG)
    case 11 => Some(AlbedoB)
    case 13 => Some(Depth)
    case 23 => Some(ColorR)
    case 24 => Some(ColorG)
    case 25 => Some(ColorB)
    case 29 => Some(CrossColorR)
    case 30 => Some(CrossColorG)
    case 31 => Some(CrossColorB)
    case _ => None
  }

  /** The documented order of the filter buffer: normal X, Y, Z at 0-5,
      depth 6-7, shadow 8-9, albedo 10-15 and colour 16-21, each a mean
      followed by its variance; with cross denoising the second colour set
      follows at 22-27. */
  function DenoiseLayout(p: int, cross: bool): Option<Output> {
    var order := [NormalX, NormalY, NormalZ, Depth, Shadow, AlbedoR, AlbedoG, AlbedoB, ColorR, ColorG, ColorB]
      + (if cross then [CrossColorR, CrossColorG, CrossColorB] else []);
    if 0 <= p < 2 * |order| then Some(Output(order[p / 2], p % 2 == 1)) else None
  }

  /** Step 2's routing tables: render-buffer mean and variance passes and the
      filter-buffer pass the filtered mean goes to (its variance goes to the
      pass after it). */
  const MeanFrom: seq<int> := [0, 1, 2, 6, 7, 8, 12]
  const VarianceFrom: seq<int> := [3, 4, 5, 9, 10, 11, 13]
  const OffsetTo: seq<int> := [0, 2, 4, 10, 12, 14, 6]

  /** Step 3's routing tables for the colour passes. */
  function ColorMeanFrom(cross: bool): seq<int> {
    if cross then [20, 21, 22, 26, 27, 28] else [20, 21, 22]
  }
  function ColorVarianceFrom(cross: bool): seq<int> {
    if cross then [23, 24, 25, 29, 30, 31] else [23, 24, 25]
  }
  function ColorOffsetTo(cross: bool): seq<int> {
    if cross then [16, 18, 20, 22, 24, 26] else [16, 18, 20]
  }

  /** The inverse of OffsetTo: the step-2 row whose mean goes to pass 2j. */
  function FeatureRow(j: int): (i: int)
    ensures 0 <= j < 8 && j != 4 ==> 0 <= i < |OffsetTo| && OffsetTo[i] == 2 * j
  {
    match j
    case 0 => 0
    case 1 => 1
    case 2 => 2
    case 3 => 6
    case 5 => 3
    case 6 => 4
    case 7 => 5
    case _ => -1
  }

  /** Every step-2 row is found again from its target pass, and the targets
      are even passes below 16 other than 8 (the shadow's). */
  lemma FeatureRowInverts(i: int)
    requires 0 <= i < |OffsetTo|
    ensures OffsetTo[i] % 2 == 0 && 0 <= OffsetTo[i] < 16 && OffsetTo[i] != ShadowMeanPass
    ensures FeatureRow(OffsetTo[i] / 2) == i
  {
  }

  /** The colour targets are consecutive pairs from pass 16 on. */
  lemma ColorTargetsConsecutive(i: int, cross: bool)
    requires 0 <= i < |ColorOffsetTo(cross)|
    ensures ColorOffsetTo(cross)[i] == 16 + 2 * i
    ensures |ColorOffsetTo(cross)| == (PassCount(cross) - 16) / 2
  {
  }

  /** Step 1's result: the shadow feature and its variance. */
  const ShadowMeanPass := 8
  const ShadowVariancePass := 9

  /** Step 1's scratch: sampleV, sampleVV, bufferV, cleanV, unfilteredA,
      unfilteredB and the three non-local-means temporaries. */
  const ShadowScratch: seq<int> := [0, 1, 2, 3, 4, 5, 10, 11, 12]

  /** Step 2's scratch: the unfiltered feature and the three temporaries. */
  const FeatureScratch: seq<int> := [16, 17, 18, 19]

  /** Each target t of a routing table receives a mean at t and a variance
      at t + 1. */
  function Pairs(targets: seq<int>): (ps: seq<int>)
    ensures |ps| == 2 * |targets|
  {
    if targets == [] then [] else [targets[0], targets[0] + 1] + Pairs(targets[1..])
  }

  /** The pairs of step 2's and step 3's targets, spelled out. */
  lemma PairsOfTargets(cross: bool)
    ensures Pairs(OffsetTo) == [0, 1, 2, 3, 4, 5, 10, 11, 12, 13, 14, 15, 6, 7]
    ensures Pairs(ColorOffsetTo(cross)) ==
      [16, 17, 18, 19, 20, 21] + (if cross then [22, 23, 24, 25, 26, 27] else [])
  {
    PairsOfFeatureTargets();
    if cross {
      PairsOfCrossColorTargets();
    } else {
      PairsOfColorTargets();
    }
  }

  lemma PairsOfFeatureTargets()
    ensures Pairs(OffsetTo) == [0, 1, 2, 3, 4, 5, 10, 11, 12, 13, 14, 15, 6, 7]
  {
    assert Pairs([6]) == [6, 7];
    assert Pairs([14, 6]) == [14, 15, 6, 7];
    assert Pairs([12, 14, 6]) == [12, 13, 14, 15, 6, 7];
    assert Pairs([10, 12, 14, 6]) == [10, 11, 12, 13, 14, 15, 6, 7];
    assert Pairs([4, 10, 12, 14, 6]) == [4, 5, 10, 11, 12, 13, 14, 15, 6, 7];
    assert Pairs([2, 4, 10, 12, 14, 6]) == [2, 3, 4, 5, 10, 11, 12, 13, 14, 15, 6, 7];
  }

  lemma PairsOfColorTargets()
    ensures Pairs([16, 18, 20]) == [16, 17, 18, 19, 20, 21]
  {
    assert Pairs([20]) == [20, 21];
    assert Pairs([18, 20]) == [18, 19, 20, 21];
  }

  lemma PairsOfCrossColorTargets()
    ensures Pairs([16, 18, 20, 22, 24, 26]) == [16, 17, 18, 19, 20, 21, 22, 23, 24, 25, 26, 27]
  {
    assert Pairs([26]) == [26, 27];
    assert Pairs([24, 26]) == [24, 25, 26, 27];
    assert Pairs([22, 24, 26]) == [22, 23, 24, 25, 26, 27];
    assert Pairs([20, 22, 24, 26]) == [20, 21, 22, 23, 24, 25, 26, 27];
    assert Pairs([18, 20, 22, 24, 26]) == [18, 19, 20, 21, 22, 23, 24, 25, 26, 27];
  }

  /** Every final pass, in the order the three steps write them. */
  function FinalWrites(cross: bool): seq<int> {
    [ShadowMeanPass, ShadowVariancePass] + Pairs(OffsetTo) + Pairs(ColorOffsetTo(cross))
  }

  /** The three steps' final writes cover the buffer's passes exactly once:
      no final pass is written twice and none is left out. */
  lemma FinalWritesPartition(cross: bool)
    ensures |FinalWrites(cross)| == PassCount(cross)
    ensures forall i, j :: 0 <= i < j < |FinalWrites(cross)| ==> FinalWrites(cross)[i] != FinalWrites(cross)[j]
    ensures forall p :: p in FinalWrites(cross) <==> 0 <= p < PassCount(cross)
  {
    PairsOfTargets(cross);
    ConcatenationPartition(Pairs(OffsetTo), Pairs(ColorOffsetTo(cross)), PassCount(cross));
  }

  lemma ConcatenationPartition(a: seq<int>, b: seq<int>, n: int)
    requires a == [0, 1, 2, 3, 4, 5, 10, 11, 12, 13, 14, 15, 6, 7]
    requires (b == [16, 17, 18, 19, 20, 21] && n == 22) ||
             (b == [16, 17, 18, 19, 20, 21, 22, 23, 24, 25, 26, 27] && n == 28)
    ensures |[8, 9] + a + b| == n
    ensures forall i, j :: 0 <= i < j < |[8, 9] + a + b| ==> ([8, 9] + a + b)[i] != ([8, 9] + a + b)[j]
    ensures forall p :: p in [8, 9] + a + b <==> 0 <= p < n
  {
    var s := [8, 9] + a + b;
    if n == 22 {
      assert s == [8, 9, 0, 1, 2, 3, 4, 5, 10, 11, 12, 13, 14, 15, 6, 7, 16, 17, 18, 19, 20, 21];
    } else {
      assert s == [8, 9, 0, 1, 2, 3, 4, 5, 10, 11, 12, 13, 14, 15, 6, 7, 16, 17, 18, 19, 20, 21, 22, 23, 24, 25, 26, 27];
    }
    LiteralPartition(s, n);
  }

  lemma LiteralPartition(s: seq<int>, n: int)
    requires (s == [8, 9, 0, 1, 2, 3, 4, 5, 10, 11, 12, 13, 14, 15, 6, 7, 16, 17, 18, 19, 20, 21] && n == 22)
      || (s == [8, 9, 0, 1, 2, 3, 4, 5, 10, 11, 12, 13, 14, 15, 6, 7, 16, 17, 18, 19, 20, 21, 22, 23, 24, 25, 26, 27] && n == 28)
    ensures |s| == n
    ensures forall i, j :: 0 <= i < j < |s| ==> s[i] != s[j]
    ensures forall p :: p in s <==> 0 <= p < n
  {
  }

  /** The scratch passes of step 2 are none of the passes steps 1 and 2
      leave as results, and step 1's scratch is overwritten by step 2's
      results. */
  lemma ScratchAliasesNoResult()
    ensures forall k :: 0 <= k < |FeatureScratch| ==>
      FeatureScratch[k] !in [ShadowMeanPass, ShadowVariancePass] + Pairs(OffsetTo)
    ensures forall k :: 0 <= k < |ShadowScratch| ==> ShadowScratch[k] in Pairs(OffsetTo)
  {
    PairsOfTargets(false);
  }

  /** The routing tables agree with the documented layout: row i of step 2
      reads the mean and the variance of one feature and writes them where
      the layout puts that feature's mean and variance. */
  lemma FeatureTablesFollowLayout(i: int, cross: bool)
    requires 0 <= i < |OffsetTo|
    ensures RenderMean(MeanFrom[i]).Some?
    ensures RenderVariance(VarianceFrom[i]) == RenderMean(MeanFrom[i])
    ensures DenoiseLayout(OffsetTo[i], cross) == Some(Output(RenderMean(MeanFrom[i]).value, false))
    ensures DenoiseLayout(OffsetTo[i] + 1, cross) == Some(Output(RenderMean(MeanFrom[i]).value, true))
  {
  }

  /** The same for the colour rows of step 3. */
  lemma ColorTablesFollowLayout(i: int, cross: bool)
    requires 0 <= i < |ColorOffsetTo(cross)|
    ensures RenderMean(ColorMeanFrom(cross)[i]).Some?
    ensures RenderVariance(ColorVarianceFrom(cross)[i]) == RenderMean(ColorMeanFrom(cross)[i])
    ensures DenoiseLayout(ColorOffsetTo(cross)[i], cross) == Some(Output(RenderMean(ColorMeanFrom(cross)[i]).value, false))
    ensures DenoiseLayout(ColorOffsetTo(cross)[i] + 1, cross) == Some(Output(RenderMean(ColorMeanFrom(cross)[i]).value, true))
  {
  }

  /** Step 1's result passes are where the layout puts the shadow. */
  lemma ShadowFollowsLayout(cross: bool)
    ensures DenoiseLayout(ShadowMeanPass, cross) == Some(Output(Shadow, false))
    ensures DenoiseLayout(ShadowVariancePass, cross) == Some(Output(Shadow, true))
  {
  }

  // ---------------------------------------------------------------------
  // How denoise_run addresses the buffer

  /** The weight and variance passes denoise_run reads: colour R's mean and
      variance. */
  const RunWeightPass := 16
  const RunVariancePass := 17

  lemma RunPassesAreColorR(cross: bool)
    ensures DenoiseLayout(RunWeightPass, cross) == Some(Output(ColorR, false))
    ensures DenoiseLayout(RunVariancePass, cross) == Some(Output(ColorR, true))
  {
  }

  /** denoise_run as written: pass q starts at q * w*h, a stride that leaves
      out the frames factor of denoise_fill_buffer's pass_stride. */
  function RunOffsetAsWritten(q: int, w: int, h: int): int {
    q * (w * h)
  }

  /** As written, pass q of denoise_run is plane (q / frames, q % frames) of
      the buffer denoise_fill_buffer filled. */
  lemma RunOffsetAsWrittenLandsIn(q: int, x: int, y: int, w: int, h: int, frames: int)
    requires frames > 0 && q >= 0
    ensures RunOffsetAsWritten(q, w, h) + y * w + x == FilterIndex(q / frames, q % frames, x, y, w, h, frames)
  {
    FilterIndexNested(q / frames, q % frames, x, y, w, h, frames);
    assert q == q / frames * frames + q % frames;
    assert q * (w * h) + y * w + x == (q * h + y) * w + x;
  }

  /** With two frames, denoise_run's weight pass is the shadow feature of the
      first frame and its variance pass the shadow feature of the second. */
  lemma RunReadsShadowWithTwoFrames(w: int, h: int, cross: bool)
    ensures RunOffsetAsWritten(RunWeightPass, w, h) == FilterIndex(ShadowMeanPass, 0, 0, 0, w, h, 2)
    ensures RunOffsetAsWritten(RunVariancePass, w, h) == FilterIndex(ShadowMeanPass, 1, 0, 0, w, h, 2)
    ensures DenoiseLayout(ShadowMeanPass, cross) != DenoiseLayout(RunWeightPass, cross)
  {
    RunOffsetAsWrittenLandsIn(RunWeightPass, 0, 0, w, h, 2);
    RunOffsetAsWrittenLandsIn(RunVariancePass, 0, 0, w, h, 2);
  }

  /** denoise_run with the fill buffer's pass stride: pass q of the first
      frame, for any number of frames. */
  function RunOffset(q: int, w: int, h: int, frames: int): (i: int)
    ensures i == FilterIndex(q, 0, 0, 0, w, h, frames)
  {
    q * PassStride(w, h, frames)
  }

  /** The two strides agree exactly when there is a single frame (for a
      non-empty image and a pass past the first). */
  lemma RunStridesAgree(q: int, w: int, h: int, frames: int)
    requires q > 0 && w > 0 && h > 0 && frames > 0
    ensures RunOffset(q, w, h, frames) == RunOffsetAsWritten(q, w, h) <==> frames == 1
  {
    if frames > 1 {
      assert q * (w * h) > 0 by { assert w * h > 0; }
      assert q * (w * h * frames) == q * (w * h) * frames;
      assert q * (w * h) * frames > q * (w * h) * 1 by {
        assert q * (w * h) * frames - q * (w * h) == q * (w * h) * (frames - 1);
        assert q * (w * h) * (frames - 1) > 0;
      }
    }
  }
}
