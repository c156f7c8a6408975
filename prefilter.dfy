/** denoise_fill_buffer at the granularity of whole planes: the filter buffer
    is an array2 indexed [pass, frame] whose cells say what each plane holds
    (which render-buffer data, filtered how, from which frame). The filter
    kernels are opaque; each call is modelled by the planes it writes and the
    planes it reads. A per-pixel sweep over the rectangle writes a whole plane. */
module FeaturePrefilter {
  import opened Wrappers
  import opened Geometry
  import opened FilterLayout

  /** The five planes the shadow-dividing kernel produces: the two shadow
      halves, the sample variance, the variance of that variance and the
      buffer variance. */
  datatype ShadowPart = HalfA | HalfB | SampleVariance | SampleVarianceVariance | BufferVariance

  /** What a plane of the filter buffer holds. */
  datatype Plane =
    | Cleared                                                        // memset to zero
    | Scratch                                                        // an intermediate left by a kernel
    | ShadowInput(frame: int, part: ShadowPart)                      // divide_shadow output
    | FeatureMean(frame: int, from: int)                             // get_feature mean of render pass `from`
    | FeatureVariance(frame: int, from: int)                         // get_feature variance of render pass `from`
    // blurred patch weights of one offset, over the rectangle clipped for it
    | OffsetWeights(weight: Plane, variance: Plane, f: int, offset: Offset, area: Rect)
    // the contributions of the first `count` offsets of the radius-r window, in loop order
    | WeightedSum(image: Plane, weight: Plane, variance: Plane, f: int, r: int, count: int)
    | WeightTotal(weight: Plane, variance: Plane, f: int, r: int, count: int)
    // the normalised result of non_local_means over the whole radius-r window
    | Smoothed(image: Plane, weight: Plane, variance: Plane, r: int, f: int)
    | HalvesMean(a: Plane, b: Plane, r: int)                         // combine_halves mean output
    | HalvesVariance(a: Plane, b: Plane, r: int)                     // combine_halves variance output

  /** normalize: the weighted sum divided by the accumulated weights. Once
      every offset of the window has been added this is the smoothed image;
      the model does not give a partial sum any other meaning. */
  function Normalize(sum: Plane, total: Plane): Plane {
    if sum.WeightedSum? && total == WeightTotal(sum.weight, sum.variance, sum.f, sum.r, sum.count) &&
       sum.r >= 0 && sum.count == WindowSize(sum.r)
    then Smoothed(sum.image, sum.weight, sum.variance, sum.r, sum.f)
    else Scratch
  }

  /** local_rect of one offset over the working rectangle: the pixels whose
      neighbour at that offset is also inside it, in the rectangle's own
      coordinates. */
  function Clipped(o: Offset, rect: Rect): (lr: Rect)
    ensures forall x, y :: Contains(lr, x, y) <==>
      Contains(rect, rect.x + x, rect.y + y) && Contains(rect, rect.x + x + o.dx, rect.y + y + o.dy)
  {
    LocalRect(o, rect.z - rect.x, rect.w - rect.y)
  }

  /** Passes index the buffer's first dimension. */
  predicate IsPass(buf: array2<Plane>, p: int) {
    0 <= p < buf.Length0
  }

  /** The three outputs and the scratch passes of one non_local_means call are
      distinct from each other and from the three planes it reads. */
  predicate NlmAliasFree(image: int, weight: int, out: int, variance: int,
                         difference: int, blurDifference: int, weightAccum: int)
  {
    out != difference && out != blurDifference && out != weightAccum &&
    difference != blurDifference && difference != weightAccum && blurDifference != weightAccum &&
    out != image && out != weight && out != variance &&
    difference != image && difference != weight && difference != variance &&
    blurDifference != image && blurDifference != weight && blurDifference != variance &&
    weightAccum != image && weightAccum != weight && weightAccum != variance
  }

  /** non_local_means on frame fr: clears `out` and `weightAccum`, adds in the
      contribution of each window offset in loop order, then normalises. The
      planes read are left as they were, and nothing but the four planes
      written changes. */
  method NonLocalMeans(buf: array2<Plane>, fr: int, rect: Rect, image: int, weight: int, out: int, variance: int,
                       difference: int, blurDifference: int, weightAccum: int, r: nat, f: int)
    requires 0 <= fr < buf.Length1
    requires IsPass(buf, image) && IsPass(buf, weight) && IsPass(buf, out) && IsPass(buf, variance)
    requires IsPass(buf, difference) && IsPass(buf, blurDifference) && IsPass(buf, weightAccum)
    requires NlmAliasFree(image, weight, out, variance, difference, blurDifference, weightAccum)
    modifies buf
    ensures buf[out, fr] == Smoothed(old(buf[image, fr]), old(buf[weight, fr]), old(buf[variance, fr]), r, f)
    ensures buf[weightAccum, fr] == WeightTotal(old(buf[weight, fr]), old(buf[variance, fr]), f, r, WindowSize(r))
    ensures buf[difference, fr] == Scratch
    ensures buf[blurDifference, fr] == OffsetWeights(old(buf[weight, fr]), old(buf[variance, fr]), f, Offset(r, r), Clipped(Offset(r, r), rect))
    ensures forall p, q | 0 <= p < buf.Length0 && 0 <= q < buf.Length1 && q != fr :: buf[p, q] == old(buf[p, q])
    ensures forall p | 0 <= p < buf.Length0 && p !in {out, difference, blurDifference, weightAccum} :: buf[p, fr] == old(buf[p, fr])
  {
    var img, wt, vr := buf[image, fr], buf[weight, fr], buf[variance, fr];
    buf[weightAccum, fr] := WeightTotal(wt, vr, f, r, 0);
    buf[out, fr] := WeightedSum(img, wt, vr, f, r, 0);
    var i := 0;
    while i < WindowSize(r)
      invariant 0 <= i <= WindowSize(r)
      invariant buf[out, fr] == WeightedSum(img, wt, vr, f, r, i)
      invariant buf[weightAccum, fr] == WeightTotal(wt, vr, f, r, i)
      invariant i > 0 ==> buf[difference, fr] == Scratch
      invariant i > 0 ==> buf[blurDifference, fr] == OffsetWeights(wt, vr, f, OffsetAt(i - 1, r), Clipped(OffsetAt(i - 1, r), rect))
      invariant forall p, q | 0 <= p < buf.Length0 && 0 <= q < buf.Length1 && q != fr :: buf[p, q] == old(buf[p, q])
      invariant forall p | 0 <= p < buf.Length0 && p !in {out, difference, blurDifference, weightAccum} :: buf[p, fr] == old(buf[p, fr])
    {
      var o := OffsetAt(i, r);
      // calc_difference, blur and calc_weight over the rectangle clipped
      // for o leave intermediates in the two temporaries
      buf[difference, fr] := Scratch;
      buf[blurDifference, fr] := Scratch;
      // the second blur leaves this offset's patch weights
      buf[blurDifference, fr] := OffsetWeights(wt, vr, f, o, Clipped(o, rect));
      // update_output adds the offset's contribution to out and weightAccum
      buf[out, fr] := WeightedSum(img, wt, vr, f, r, i + 1);
      buf[weightAccum, fr] := WeightTotal(wt, vr, f, r, i + 1);
      i := i + 1;
    }
    LastOffset(r);
    // normalize divides out by weightAccum over the whole rectangle
    buf[out, fr] := Normalize(buf[out, fr], buf[weightAccum, fr]);
  }

  /** The window loop ends at the offset (r, r). */
  lemma LastOffset(r: nat)
    ensures OffsetAt(WindowSize(r) - 1, r) == Offset(r, r)
  {
    var n := 2 * r + 1;
    var last := 2 * r * n + 2 * r;
    assert WindowSize(r) - 1 == last by {
      assert n * n == 2 * r * n + n;
    }
    DivModOf(2 * r, 2 * r, n);
    assert OffsetAt(last, r) == Offset(r, r);
  }

  // ---------------------------------------------------------------------
  // Step 1: the shadow feature

  /** cleanV: the buffer variance smoothed with the sample variance as guide. */
  function CleanVariance(fr: int): Plane {
    Smoothed(ShadowInput(fr, BufferVariance), ShadowInput(fr, SampleVariance), ShadowInput(fr, SampleVarianceVariance), 6, 3)
  }

  /** One shadow half filtered with the other half as guide (radius 5). */
  function FilteredHalf(fr: int, a: bool): Plane {
    var (mine, other) := if a then (HalfA, HalfB) else (HalfB, HalfA);
    Smoothed(ShadowInput(fr, mine), ShadowInput(fr, other), CleanVariance(fr), 5, 3)
  }

  /** The residual variance between the two filtered halves. */
  function ResidualVariance(fr: int): Plane {
    HalvesVariance(FilteredHalf(fr, true), FilteredHalf(fr, false), 2)
  }

  /** One filtered half filtered again, guided by the other (radius 4). */
  function FinalHalf(fr: int, a: bool): Plane {
    Smoothed(FilteredHalf(fr, a), FilteredHalf(fr, !a), ResidualVariance(fr), 4, 2)
  }

  function ShadowMean(fr: int): Plane {
    HalvesMean(FinalHalf(fr, true), FinalHalf(fr, false), 0)
  }

  function ShadowVariance(fr: int): Plane {
    HalvesVariance(FinalHalf(fr, true), FinalHalf(fr, false), 0)
  }

  /** divide_shadow over the rectangle: the shadow halves go to passes 4 and
      5, the sample variance, its variance and the buffer variance to 0-2. */
  method DivideShadow(buf: array2<Plane>, fr: int)
    requires 0 <= fr < buf.Length1 && buf.Length0 >= 6
    modifies buf
    ensures buf[4, fr] == ShadowInput(fr, HalfA) && buf[5, fr] == ShadowInput(fr, HalfB)
    ensures buf[0, fr] == ShadowInput(fr, SampleVariance)
    ensures buf[1, fr] == ShadowInput(fr, SampleVarianceVariance)
    ensures buf[2, fr] == ShadowInput(fr, BufferVariance)
    ensures forall p, q | 0 <= p < buf.Length0 && 0 <= q < buf.Length1 && q != fr :: buf[p, q] == old(buf[p, q])
    ensures forall p | 0 <= p < buf.Length0 && p !in {0, 1, 2, 4, 5} :: buf[p, fr] == old(buf[p, fr])
  {
    buf[4, fr] := ShadowInput(fr, HalfA);
    buf[5, fr] := ShadowInput(fr, HalfB);
    buf[0, fr] := ShadowInput(fr, SampleVariance);
    buf[1, fr] := ShadowInput(fr, SampleVarianceVariance);
    buf[2, fr] := ShadowInput(fr, BufferVariance);
  }

  /** The first filtering: cleanV from the buffer variance, then each shadow
      half guided by the other, into sampleV (0) and bufferV (2). */
  method FilterHalves(buf: array2<Plane>, fr: int, rect: Rect)
    requires 0 <= fr < buf.Length1 && buf.Length0 >= 13
    requires buf[4, fr] == ShadowInput(fr, HalfA) && buf[5, fr] == ShadowInput(fr, HalfB)
    requires buf[0, fr] == ShadowInput(fr, SampleVariance)
    requires buf[1, fr] == ShadowInput(fr, SampleVarianceVariance)
    requires buf[2, fr] == ShadowInput(fr, BufferVariance)
    modifies buf
    ensures buf[3, fr] == CleanVariance(fr)
    ensures buf[0, fr] == FilteredHalf(fr, true) && buf[2, fr] == FilteredHalf(fr, false)
    ensures buf[10, fr] == Scratch
    ensures buf[11, fr] == OffsetWeights(ShadowInput(fr, HalfA), CleanVariance(fr), 3, Offset(5, 5), Clipped(Offset(5, 5), rect))
    ensures buf[12, fr] == WeightTotal(ShadowInput(fr, HalfA), CleanVariance(fr), 3, 5, WindowSize(5))
    ensures forall p, q | 0 <= p < buf.Length0 && 0 <= q < buf.Length1 && q != fr :: buf[p, q] == old(buf[p, q])
    ensures forall p | 0 <= p < buf.Length0 && p !in {0, 2, 3, 10, 11, 12} :: buf[p, fr] == old(buf[p, fr])
  {
    var sampleV, sampleVV, bufferV, cleanV := 0, 1, 2, 3;
    var unfilteredA, unfilteredB := 4, 5;
    var nlmTemp1, nlmTemp2, nlmTemp3 := 10, 11, 12;
    NonLocalMeans(buf, fr, rect, bufferV, sampleV, cleanV, sampleVV, nlmTemp1, nlmTemp2, nlmTemp3, 6, 3);
    NonLocalMeans(buf, fr, rect, unfilteredA, unfilteredB, sampleV, cleanV, nlmTemp1, nlmTemp2, nlmTemp3, 5, 3);
    NonLocalMeans(buf, fr, rect, unfilteredB, unfilteredA, bufferV, cleanV, nlmTemp1, nlmTemp2, nlmTemp3, 5, 3);
  }

  /** The second filtering: the residual variance of the filtered halves into
      sampleVV (1), then each filtered half again, into passes 4 and 5. */
  method RefineHalves(buf: array2<Plane>, fr: int, rect: Rect)
    requires 0 <= fr < buf.Length1 && buf.Length0 >= 13
    requires buf[0, fr] == FilteredHalf(fr, true) && buf[2, fr] == FilteredHalf(fr, false)
    modifies buf
    ensures buf[1, fr] == ResidualVariance(fr)
    ensures buf[4, fr] == FinalHalf(fr, true) && buf[5, fr] == FinalHalf(fr, false)
    ensures buf[10, fr] == Scratch
    ensures buf[11, fr] == OffsetWeights(FilteredHalf(fr, true), ResidualVariance(fr), 2, Offset(4, 4), Clipped(Offset(4, 4), rect))
    ensures buf[12, fr] == WeightTotal(FilteredHalf(fr, true), ResidualVariance(fr), 2, 4, WindowSize(4))
    ensures forall p, q | 0 <= p < buf.Length0 && 0 <= q < buf.Length1 && q != fr :: buf[p, q] == old(buf[p, q])
    ensures forall p | 0 <= p < buf.Length0 && p !in {1, 4, 5, 10, 11, 12} :: buf[p, fr] == old(buf[p, fr])
  {
    var sampleV, sampleVV, bufferV := 0, 1, 2;
    var unfilteredA, unfilteredB := 4, 5;
    var nlmTemp1, nlmTemp2, nlmTemp3 := 10, 11, 12;
    // combine_halves with no mean output
    buf[sampleVV, fr] := HalvesVariance(buf[sampleV, fr], buf[bufferV, fr], 2);
    NonLocalMeans(buf, fr, rect, sampleV, bufferV, unfilteredA, sampleVV, nlmTemp1, nlmTemp2, nlmTemp3, 4, 2);
    NonLocalMeans(buf, fr, rect, bufferV, sampleV, unfilteredB, sampleVV, nlmTemp1, nlmTemp2, nlmTemp3, 4, 2);
  }

  /** Step 1 on frame fr: the shadow feature and its variance end in passes
      8 and 9, and passes 0-5 and 10-12 hold the intermediates. */
  method PrefilterShadow(buf: array2<Plane>, fr: int, rect: Rect)
    requires 0 <= fr < buf.Length1 && buf.Length0 >= 13
    modifies buf
    ensures buf[ShadowMeanPass, fr] == ShadowMean(fr)
    ensures buf[ShadowVariancePass, fr] == ShadowVariance(fr)
    ensures buf[0, fr] == FilteredHalf(fr, true) && buf[2, fr] == FilteredHalf(fr, false)
    ensures buf[1, fr] == ResidualVariance(fr) && buf[3, fr] == CleanVariance(fr)
    ensures buf[4, fr] == FinalHalf(fr, true) && buf[5, fr] == FinalHalf(fr, false)
    ensures buf[10, fr] == Scratch
    ensures buf[11, fr] == OffsetWeights(FilteredHalf(fr, true), ResidualVariance(fr), 2, Offset(4, 4), Clipped(Offset(4, 4), rect))
    ensures buf[12, fr] == WeightTotal(FilteredHalf(fr, true), ResidualVariance(fr), 2, 4, WindowSize(4))
    ensures forall p, q | 0 <= p < buf.Length0 && 0 <= q < buf.Length1 && q != fr :: buf[p, q] == old(buf[p, q])
    ensures forall p | 0 <= p < buf.Length0 && p !in {0, 1, 2, 3, 4, 5, 8, 9, 10, 11, 12} :: buf[p, fr] == old(buf[p, fr])
  {
    DivideShadow(buf, fr);
    FilterHalves(buf, fr, rect);
    RefineHalves(buf, fr, rect);
    // combine_halves into passes 8 and 9
    buf[ShadowMeanPass, fr] := HalvesMean(buf[4, fr], buf[5, fr], 0);
    buf[ShadowVariancePass, fr] := HalvesVariance(buf[4, fr], buf[5, fr], 0);
  }

  // ---------------------------------------------------------------------
  // Step 2: the general features

  /** Row i of step 2: the feature's mean filtered with itself as guide and
      its variance as the variance (radius 2). */
  function FilteredFeature(fr: int, i: int): Plane
    requires 0 <= i < |OffsetTo|
  {
    Smoothed(FeatureMean(fr, MeanFrom[i]), FeatureMean(fr, MeanFrom[i]), FeatureVariance(fr, VarianceFrom[i]), 2, 2)
  }

  /** One row of step 2: get_feature puts the mean in pass 16 and the
      variance in the target's odd pass, then non_local_means filters pass 16
      into the target's even pass. */
  method PrefilterFeature(buf: array2<Plane>, fr: int, rect: Rect, i: int)
    requires 0 <= fr < buf.Length1 && buf.Length0 >= 20 && 0 <= i < |OffsetTo|
    modifies buf
    ensures buf[OffsetTo[i], fr] == FilteredFeature(fr, i)
    ensures buf[OffsetTo[i] + 1, fr] == FeatureVariance(fr, VarianceFrom[i])
    ensures buf[16, fr] == FeatureMean(fr, MeanFrom[i]) && buf[17, fr] == Scratch
    ensures buf[18, fr] == OffsetWeights(FeatureMean(fr, MeanFrom[i]), FeatureVariance(fr, VarianceFrom[i]), 2, Offset(2, 2), Clipped(Offset(2, 2), rect))
    ensures buf[19, fr] == WeightTotal(FeatureMean(fr, MeanFrom[i]), FeatureVariance(fr, VarianceFrom[i]), 2, 2, WindowSize(2))
    ensures forall p, q | 0 <= p < buf.Length0 && 0 <= q < buf.Length1 && q != fr :: buf[p, q] == old(buf[p, q])
    ensures forall p | 0 <= p < buf.Length0 && p !in {OffsetTo[i], OffsetTo[i] + 1, 16, 17, 18, 19} :: buf[p, fr] == old(buf[p, fr])
  {
    var unfiltered := 16;
    var nlmTemp1, nlmTemp2, nlmTemp3 := 17, 18, 19;
    var target := OffsetTo[i];
    FeatureRowInverts(i);
    buf[unfiltered, fr] := FeatureMean(fr, MeanFrom[i]);
    buf[target + 1, fr] := FeatureVariance(fr, VarianceFrom[i]);
    NonLocalMeans(buf, fr, rect, unfiltered, unfiltered, target, target + 1, nlmTemp1, nlmTemp2, nlmTemp3, 2, 2);
  }

  /** The plane step 2 leaves in pass p (below 16, not the shadow's 8 or 9):
      the row whose target pair holds p, filtered mean in the even pass and
      variance in the odd one. */
  function FeaturePlane(p: int, fr: int): Plane
    requires 0 <= p < 16 && p != 8 && p != 9
  {
    var i := FeatureRow(p / 2);
    if p % 2 == 0 then FilteredFeature(fr, i) else FeatureVariance(fr, VarianceFrom[i])
  }

  /** Read by rows: row i's target pair holds its filtered mean and its variance. */
  lemma FeaturePlaneOfRow(i: int, fr: int)
    requires 0 <= i < |OffsetTo|
    ensures 0 <= OffsetTo[i] && OffsetTo[i] + 1 < 16 && OffsetTo[i] != 8 && OffsetTo[i] + 1 != 9
    ensures FeaturePlane(OffsetTo[i], fr) == FilteredFeature(fr, i)
    ensures FeaturePlane(OffsetTo[i] + 1, fr) == FeatureVariance(fr, VarianceFrom[i])
  {
    FeatureRowInverts(i);
    assert (OffsetTo[i] + 1) / 2 == OffsetTo[i] / 2;
  }

  /** Step 2 on frame fr: every pass below 16 other than the shadow's 8 and 9
      ends holding its row's filtered mean or variance (FeaturePlane);
      passes 16-19 hold the last row's intermediates. Only passes below 20
      other than 8 and 9 change. */
  method PrefilterFeatures(buf: array2<Plane>, fr: int, rect: Rect)
    requires 0 <= fr < buf.Length1 && buf.Length0 >= 20
    modifies buf
    ensures forall p | 0 <= p < 16 && p != 8 && p != 9 :: buf[p, fr] == FeaturePlane(p, fr)
    ensures buf[16, fr] == FeatureMean(fr, MeanFrom[6]) && buf[17, fr] == Scratch
    ensures buf[18, fr] == OffsetWeights(FeatureMean(fr, MeanFrom[6]), FeatureVariance(fr, VarianceFrom[6]), 2, Offset(2, 2), Clipped(Offset(2, 2), rect))
    ensures buf[19, fr] == WeightTotal(FeatureMean(fr, MeanFrom[6]), FeatureVariance(fr, VarianceFrom[6]), 2, 2, WindowSize(2))
    ensures forall p, q | 0 <= p < buf.Length0 && 0 <= q < buf.Length1 && q != fr :: buf[p, q] == old(buf[p, q])
    ensures forall p | 0 <= p < buf.Length0 && (p == 8 || p == 9 || p >= 20) :: buf[p, fr] == old(buf[p, fr])
  {
    var i := 0;
    while i < 7
      invariant 0 <= i <= 7
      invariant forall p | 0 <= p < 16 && p != 8 && p != 9 && FeatureRow(p / 2) < i :: buf[p, fr] == FeaturePlane(p, fr)
      invariant i > 0 ==> buf[16, fr] == FeatureMean(fr, MeanFrom[i - 1]) && buf[17, fr] == Scratch
      invariant i > 0 ==> buf[18, fr] == OffsetWeights(FeatureMean(fr, MeanFrom[i - 1]), FeatureVariance(fr, VarianceFrom[i - 1]), 2, Offset(2, 2), Clipped(Offset(2, 2), rect))
      invariant i > 0 ==> buf[19, fr] == WeightTotal(FeatureMean(fr, MeanFrom[i - 1]), FeatureVariance(fr, VarianceFrom[i - 1]), 2, 2, WindowSize(2))
      invariant forall p, q | 0 <= p < buf.Length0 && 0 <= q < buf.Length1 && q != fr :: buf[p, q] == old(buf[p, q])
      invariant forall p | 0 <= p < buf.Length0 && (p == 8 || p == 9 || p >= 20) :: buf[p, fr] == old(buf[p, fr])
    {
      label Before:
      PrefilterFeature(buf, fr, rect, i);
      FeaturePlaneOfRow(i, fr);
      forall p | 0 <= p < 16 && p != 8 && p != 9 && FeatureRow(p / 2) < i + 1
        ensures buf[p, fr] == FeaturePlane(p, fr)
      {
        if FeatureRow(p / 2) == i {
          assert p == OffsetTo[i] || p == OffsetTo[i] + 1;
        } else {
          assert p != OffsetTo[i] && p != OffsetTo[i] + 1;
          assert buf[p, fr] == old@Before(buf[p, fr]);
        }
      }
      i := i + 1;
    }
    assert forall p | 0 <= p < 16 && p != 8 && p != 9 :: FeatureRow(p / 2) < 7;
  }

  // ---------------------------------------------------------------------
  // Step 3: the colour passes

  /** The plane step 3 leaves in colour pass p: colour row (p - 16) / 2's
      mean in the even pass and its variance in the odd one, unfiltered. */
  function ColorPlane(p: int, fr: int, cross: bool): Plane
    requires 16 <= p < PassCount(cross)
  {
    var i := (p - 16) / 2;
    if p % 2 == 0 then FeatureMean(fr, ColorMeanFrom(cross)[i]) else FeatureVariance(fr, ColorVarianceFrom(cross)[i])
  }

  /** Step 3 on frame fr: get_feature copies each colour row's mean and
      variance into its target pair (the source spells the two table sets
      out in the two branches of `if(cross_denoise)`). Only passes 16 and up
      change. */
  method CopyColor(buf: array2<Plane>, fr: int, cross: bool)
    requires 0 <= fr < buf.Length1 && buf.Length0 >= PassCount(cross)
    modifies buf
    ensures forall p | 16 <= p < PassCount(cross) :: buf[p, fr] == ColorPlane(p, fr, cross)
    ensures forall p, q | 0 <= p < buf.Length0 && 0 <= q < buf.Length1 && q != fr :: buf[p, q] == old(buf[p, q])
    ensures forall p | 0 <= p < buf.Length0 && (p < 16 || p >= PassCount(cross)) :: buf[p, fr] == old(buf[p, fr])
  {
    var meanFrom, varianceFrom, offsetTo := ColorMeanFrom(cross), ColorVarianceFrom(cross), ColorOffsetTo(cross);
    var i := 0;
    while i < |offsetTo|
      invariant 0 <= i <= |offsetTo| && 16 + 2 * |offsetTo| == PassCount(cross)
      invariant forall p | 16 <= p < 16 + 2 * i :: buf[p, fr] == ColorPlane(p, fr, cross)
      invariant forall p, q | 0 <= p < buf.Length0 && 0 <= q < buf.Length1 && q != fr :: buf[p, q] == old(buf[p, q])
      invariant forall p | 0 <= p < buf.Length0 && (p < 16 || p >= 16 + 2 * i) :: buf[p, fr] == old(buf[p, fr])
    {
      ColorTargetsConsecutive(i, cross);
      buf[offsetTo[i], fr] := FeatureMean(fr, meanFrom[i]);
      buf[offsetTo[i] + 1, fr] := FeatureVariance(fr, varianceFrom[i]);
      assert (offsetTo[i] - 16) / 2 == i && (offsetTo[i] + 1 - 16) / 2 == i;
      i := i + 1;
    }
  }

  // ---------------------------------------------------------------------
  // The whole buffer

  /** What denoise_fill_buffer leaves in pass p of frame fr. */
  function FinalPlane(p: int, fr: int, cross: bool): Plane
    requires 0 <= p < PassCount(cross)
  {
    if p == ShadowMeanPass then ShadowMean(fr)
    else if p == ShadowVariancePass then ShadowVariance(fr)
    else if p < 16 then FeaturePlane(p, fr)
    else ColorPlane(p, fr, cross)
  }

  /** The three steps on one frame: every pass of the frame ends holding its
      final plane, whatever the frame held before, and no other frame changes. */
  method FillFrame(buf: array2<Plane>, fr: int, rect: Rect, cross: bool)
    requires 0 <= fr < buf.Length1 && buf.Length0 == PassCount(cross)
    modifies buf
    ensures forall p | 0 <= p < buf.Length0 :: buf[p, fr] == FinalPlane(p, fr, cross)
    ensures forall p, q | 0 <= p < buf.Length0 && 0 <= q < buf.Length1 && q != fr :: buf[p, q] == old(buf[p, q])
  {
    PrefilterShadow(buf, fr, rect);
    PrefilterFeatures(buf, fr, rect);
    CopyColor(buf, fr, cross);
  }

  /** denoise_fill_buffer: a zeroed buffer of PassCount(cross) passes for each
      of `frames` frames, filled frame by frame. */
  method DenoiseFillBuffer(cross: bool, frames: nat, rect: Rect) returns (buf: array2<Plane>)
    ensures fresh(buf) && buf.Length0 == PassCount(cross) && buf.Length1 == frames
    ensures forall p, fr | 0 <= p < buf.Length0 && 0 <= fr < buf.Length1 :: buf[p, fr] == FinalPlane(p, fr, cross)
  {
    buf := new Plane[PassCount(cross), frames]((p, fr) => Cleared);
    var frame := 0;
    while frame < frames
      invariant 0 <= frame <= frames
      invariant forall p, fr | 0 <= p < buf.Length0 && 0 <= fr < frame :: buf[p, fr] == FinalPlane(p, fr, cross)
      invariant forall p, fr | 0 <= p < buf.Length0 && frame <= fr < frames :: buf[p, fr] == Cleared
    {
      FillFrame(buf, frame, rect, cross);
      frame := frame + 1;
    }
  }

  // ---------------------------------------------------------------------
  // What the final planes mean

  /** Which feature's mean or variance a plane estimates: get_feature's
      outputs are read off the render-buffer layout, divide_shadow's halves
      are shadow means and its variances shadow variances, filtering keeps
      the meaning of the image filtered, and combine_halves gives the mean
      or the variance of what its halves estimate. */
  function Describes(pl: Plane): Option<Output> {
    match pl
    case FeatureMean(_, from) =>
      if RenderMean(from).Some? then Some(Output(RenderMean(from).value, false)) else None
    case FeatureVariance(_, from) =>
      if RenderVariance(from).Some? then Some(Output(RenderVariance(from).value, true)) else None
    case ShadowInput(_, part) => Some(Output(Shadow, !(part.HalfA? || part.HalfB?)))
    case Smoothed(image, _, _, _, _) => Describes(image)
    case HalvesMean(a, _, _) =>
      if Describes(a).Some? then Some(Output(Describes(a).value.feature, false)) else None
    case HalvesVariance(a, _, _) =>
      if Describes(a).Some? then Some(Output(Describes(a).value.feature, true)) else None
    case _ => None
  }

  /** Every pass of the filled buffer holds the output the documented layout
      assigns to it: the routing tables of the three steps realise the layout. */
  lemma FinalPlaneDescribesLayout(p: int, fr: int, cross: bool)
    requires 0 <= p < PassCount(cross)
    ensures Describes(FinalPlane(p, fr, cross)) == DenoiseLayout(p, cross)
  {
    if p == ShadowMeanPass || p == ShadowVariancePass {
      ShadowPlanesDescribeLayout(fr, cross);
    } else if p < 16 {
      FeaturePlaneDescribesLayout(p, fr, cross);
    } else {
      ColorPlaneDescribesLayout(p, fr, cross);
    }
  }

  lemma ShadowPlanesDescribeLayout(fr: int, cross: bool)
    ensures Describes(ShadowMean(fr)) == DenoiseLayout(ShadowMeanPass, cross)
    ensures Describes(ShadowVariance(fr)) == DenoiseLayout(ShadowVariancePass, cross)
  {
    ShadowFollowsLayout(cross);
    var a := ShadowInput(fr, HalfA);
    assert Describes(a) == Some(Output(Shadow, false));
    assert Describes(FilteredHalf(fr, true)) == Describes(a);
    assert Describes(FinalHalf(fr, true)) == Describes(FilteredHalf(fr, true));
  }

  lemma FeaturePlaneDescribesLayout(p: int, fr: int, cross: bool)
    requires 0 <= p < 16 && p != ShadowMeanPass && p != ShadowVariancePass
    ensures Describes(FeaturePlane(p, fr)) == DenoiseLayout(p, cross)
  {
    var i := FeatureRow(p / 2);
    FeatureTablesFollowLayout(i, cross);
    FeaturePlaneOfRow(i, fr);
    assert p == OffsetTo[i] || p == OffsetTo[i] + 1;
  }

  lemma ColorPlaneDescribesLayout(p: int, fr: int, cross: bool)
    requires 16 <= p < PassCount(cross)
    ensures Describes(ColorPlane(p, fr, cross)) == DenoiseLayout(p, cross)
  {
    var i := (p - 16) / 2;
    ColorTargetsConsecutive(0, cross);
    ColorTargetsConsecutive(i, cross);
    ColorTablesFollowLayout(i, cross);
    assert p == ColorOffsetTo(cross)[i] || p == ColorOffsetTo(cross)[i] + 1;
  }

  /** Every render-buffer input a plane was computed from belongs to frame fr. */
  predicate FromFrame(pl: Plane, fr: int) {
    match pl
    case Cleared => true
    case Scratch => true
    case ShadowInput(f, _) => f == fr
    case FeatureMean(f, _) => f == fr
    case FeatureVariance(f, _) => f == fr
    case OffsetWeights(weight, variance, _, _, _) => FromFrame(weight, fr) && FromFrame(variance, fr)
    case WeightedSum(image, weight, variance, _, _, _) =>
      FromFrame(image, fr) && FromFrame(weight, fr) && FromFrame(variance, fr)
    case WeightTotal(weight, variance, _, _, _) => FromFrame(weight, fr) && FromFrame(variance, fr)
    case Smoothed(image, weight, variance, _, _) =>
      FromFrame(image, fr) && FromFrame(weight, fr) && FromFrame(variance, fr)
    case HalvesMean(a, b, _) => FromFrame(a, fr) && FromFrame(b, fr)
    case HalvesVariance(a, b, _) => FromFrame(a, fr) && FromFrame(b, fr)
  }

  /** Frames do not mix: every plane of frame fr is computed from frame fr's
      render data alone. */
  lemma FinalPlaneFromOwnFrame(p: int, fr: int, cross: bool)
    requires 0 <= p < PassCount(cross)
    ensures FromFrame(FinalPlane(p, fr, cross), fr)
  {
    forall part: ShadowPart
      ensures FromFrame(ShadowInput(fr, part), fr)
    {
    }
    assert FromFrame(CleanVariance(fr), fr);
    assert FromFrame(FilteredHalf(fr, true), fr) && FromFrame(FilteredHalf(fr, false), fr);
    assert FromFrame(ResidualVariance(fr), fr);
    assert FromFrame(FinalHalf(fr, true), fr) && FromFrame(FinalHalf(fr, false), fr);
  }
}
