/** denoise_run: a feature transform per filter-area pixel, the normal
    equations of every pixel accumulated over the offsets of the half window
    from the colour passes of the filter buffer, and a finalisation per
    pixel. The kernels are opaque; the model tracks which pixel, which storage
    slot, which offsets and which buffer offsets each step uses. */
module Regression {
  import opened Wrappers
  import opened Geometry
  import opened FilterLayout

  /** A FilterStorage slot: not yet written, or the transform
      construct_transform built for one pixel. */
  datatype FilterStorage = Unset | Transform(pixel: Pixel)

  /** One offset's contribution to a pixel's normal equations: the offset,
      the rectangle clipped for it (local_rect) over which its weights were
      computed, and where the weight and variance planes they were computed
      from start in the filter buffer, with the stride between their colour
      channels. */
  datatype Contribution = Contribution(offset: Offset, localRect: Rect, weight: int, variance: int, channelStride: int)

  /** What filter_finalize is called with for one pixel. */
  datatype Finalized = Finalized(pixel: Pixel, slot: int, storage: FilterStorage,
                                 gramian: seq<Contribution>, rightHand: seq<Contribution>)

  // ---------------------------------------------------------------------
  // Storage slots and allocation sizes

  /** storage_num: one slot per filter-area pixel. */
  function StorageCount(fa: Area): int {
    fa.width * fa.height
  }

  /** The slot of the filter-area pixel at local (x, y): y*filter_area.z + x. */
  function StorageSlot(fa: Area, x: int, y: int): int {
    y * fa.width + x
  }

  /** The slot index is a bijection between the pixels of the filter area and
      [0, storage_num): every pixel's slot is in range and decodes back to it,
      and every slot is the slot of the pixel it decodes to. */
  lemma StorageSlotBijection(fa: Area, x: int, y: int, k: int)
    requires fa.width > 0
    ensures InFrame(x, y, fa.width, fa.height) ==>
      0 <= StorageSlot(fa, x, y) < StorageCount(fa) &&
      StorageSlot(fa, x, y) % fa.width == x && StorageSlot(fa, x, y) / fa.width == y
    ensures 0 <= k < StorageCount(fa) ==>
      InFrame(k % fa.width, k / fa.width, fa.width, fa.height) && StorageSlot(fa, k % fa.width, k / fa.width) == k
  {
    if InFrame(x, y, fa.width, fa.height) {
      DigitBound(y, x, fa.width, fa.height);
      DivModOf(y, x, fa.width);
    }
    if 0 <= k < StorageCount(fa) {
      QuotientBelow(k, fa.width, fa.height);
    }
  }

  /** XtWX holds a (features+1)² block of floats per slot, XtWY a
      (features+1) block of float3 per slot. */
  function GramianSize(features: nat, slots: nat): nat {
    (features + 1) * (features + 1) * slots
  }

  function RightHandSize(features: nat, slots: nat): nat {
    (features + 1) * slots
  }

  /** Element j of slot k's block lies inside the allocation, for both arrays. */
  lemma BlocksInBounds(features: nat, slots: nat, k: int, j: int)
    requires 0 <= k < slots && 0 <= j < (features + 1) * (features + 1)
    ensures 0 <= k * ((features + 1) * (features + 1)) + j < GramianSize(features, slots)
    ensures j < features + 1 ==> 0 <= k * (features + 1) + j < RightHandSize(features, slots)
  {
    var block := (features + 1) * (features + 1);
    DigitBound(k, j, block, slots);
    assert (features + 1) * (features + 1) * slots == slots * block;
    if j < features + 1 {
      DigitBound(k, j, features + 1, slots);
    }
  }

  // ---------------------------------------------------------------------
  // Where the weights are read

  /** The contribution of offset o over a width × height working rectangle. */
  function ContributionOf(o: Offset, width: int, height: int, weight: int, variance: int, channelStride: int): Contribution {
    Contribution(o, LocalRect(o, width, height), weight, variance, channelStride)
  }

  /** What construct_gramian has added to the slot of the pixel at local
      (x, y) of a width × height working rectangle after the first `count`
      offsets of the half window: the contribution of each offset whose
      clipped rectangle holds the pixel, in loop order. */
  function SlotContributions(count: nat, hw: nat, width: int, height: int, x: int, y: int,
                             weight: int, variance: int, channelStride: int): seq<Contribution>
    requires count <= WindowSize(hw)
  {
    if count == 0 then []
    else
      var o := OffsetAt(count - 1, hw);
      SlotContributions(count - 1, hw, width, height, x, y, weight, variance, channelStride) +
      (if Contains(LocalRect(o, width, height), x, y) then [ContributionOf(o, width, height, weight, variance, channelStride)] else [])
  }

  /** A pixel's normal equations after `count` offsets hold, in loop order,
      the contribution of exactly those offsets among the first `count` whose
      neighbour of the pixel lies in the working rectangle together with the
      pixel itself, each of them once. */
  lemma {:induction false} SlotContributionsCover(count: nat, hw: nat, width: int, height: int, x: int, y: int,
                                                 weight: int, variance: int, channelStride: int)
    requires count <= WindowSize(hw)
    ensures var cs := SlotContributions(count, hw, width, height, x, y, weight, variance, channelStride);
      forall j | 0 <= j < |cs| ::
        InWindow(cs[j].offset, hw) && OffsetIndex(cs[j].offset, hw) < count &&
        PairInFrame(cs[j].offset, x, y, width, height) &&
        cs[j] == ContributionOf(cs[j].offset, width, height, weight, variance, channelStride)
    ensures var cs := SlotContributions(count, hw, width, height, x, y, weight, variance, channelStride);
      forall i, j | 0 <= i < j < |cs| :: OffsetIndex(cs[i].offset, hw) < OffsetIndex(cs[j].offset, hw)
    ensures var cs := SlotContributions(count, hw, width, height, x, y, weight, variance, channelStride);
      forall o | InWindow(o, hw) && OffsetIndex(o, hw) < count ::
        ContributionOf(o, width, height, weight, variance, channelStride) in cs <==> PairInFrame(o, x, y, width, height)
  {
    if count > 0 {
      var cs := SlotContributions(count, hw, width, height, x, y, weight, variance, channelStride);
      SlotContributionsCover(count - 1, hw, width, height, x, y, weight, variance, channelStride);
      var last := OffsetAt(count - 1, hw);
      forall o | InWindow(o, hw) && OffsetIndex(o, hw) < count
        ensures ContributionOf(o, width, height, weight, variance, channelStride) in cs <==> PairInFrame(o, x, y, width, height)
      {
        if OffsetIndex(o, hw) == count - 1 {
          OffsetIndexVisits(o, hw);
          assert o == last;
        }
      }
    }
  }

  /** Offset o reaches the filter-area pixel p of a denoise over rect exactly
      when o belongs to the half window and both p and its neighbour p + o
      lie inside rect. */
  lemma GramianOffsets(rect: Rect, hw: nat, p: Pixel, o: Offset, weight: int, variance: int, channelStride: int)
    ensures var cs := SlotContributions(WindowSize(hw), hw, rect.z - rect.x, rect.w - rect.y, p.x - rect.x, p.y - rect.y,
                                        weight, variance, channelStride);
      ContributionOf(o, rect.z - rect.x, rect.w - rect.y, weight, variance, channelStride) in cs <==>
        InWindow(o, hw) && Contains(rect, p.x, p.y) && Contains(rect, p.x + o.dx, p.y + o.dy)
  {
    SlotContributionsCover(WindowSize(hw), hw, rect.z - rect.x, rect.w - rect.y, p.x - rect.x, p.y - rect.y,
                           weight, variance, channelStride);
    if InWindow(o, hw) {
      OffsetIndexVisits(o, hw);
    }
  }

  /** Channel c (red, green, blue) of the weight and variance planes, read
      with the fill buffer's own pass stride, is colour c's mean and variance
      in frame 0 of the filter buffer. */
  lemma RunChannelsAreColor(c: int, w: int, h: int, frames: int, cross: bool)
    requires 0 <= c < 3
    ensures RunOffset(RunWeightPass, w, h, frames) + c * (2 * PassStride(w, h, frames)) ==
      FilterIndex(RunWeightPass + 2 * c, 0, 0, 0, w, h, frames)
    ensures RunOffset(RunVariancePass, w, h, frames) + c * (2 * PassStride(w, h, frames)) ==
      FilterIndex(RunVariancePass + 2 * c, 0, 0, 0, w, h, frames)
    ensures DenoiseLayout(RunWeightPass + 2 * c, cross) == Some(Output([ColorR, ColorG, ColorB][c], false))
    ensures DenoiseLayout(RunVariancePass + 2 * c, cross) == Some(Output([ColorR, ColorG, ColorB][c], true))
  {
    var s := PassStride(w, h, frames);
    assert RunWeightPass * s + c * (2 * s) == (RunWeightPass + 2 * c) * s;
    assert RunVariancePass * s + c * (2 * s) == (RunVariancePass + 2 * c) * s;
  }

  /** local_filter_rect: the filter area moved into the coordinates of the
      working rectangle, whose corner is pixel (0, 0) of the filter buffer. */
  function LocalFilterArea(fa: Area, rect: Rect): (local: Area)
    ensures local.width == fa.width && local.height == fa.height
    ensures forall x, y :: InArea(fa, x, y) <==> InArea(local, x - rect.x, y - rect.y)
  {
    Area(fa.x - rect.x, fa.y - rect.y, fa.width, fa.height)
  }

  // ---------------------------------------------------------------------
  // The three loops

  /** The construct_transform sweep: the slot of each filter-area pixel gets
      that pixel's transform, in row-major order. */
  method ConstructTransforms(storage: array<FilterStorage>, fa: Area)
    requires fa.width >= 0 && fa.height >= 0 && storage.Length == StorageCount(fa)
    modifies storage
    ensures forall k | 0 <= k < storage.Length :: storage[k] == Transform(AreaPixels(fa)[k])
  {
    ghost var order := AreaPixels(fa);
    ghost var done := 0;
    var y := 0;
    while y < fa.height
      invariant 0 <= y <= fa.height && done == y * fa.width
      invariant 0 <= done <= |order| == storage.Length
      invariant forall k | 0 <= k < done :: storage[k] == Transform(order[k])
    {
      var x := 0;
      while x < fa.width
        invariant 0 <= x <= fa.width && done == y * fa.width + x
        invariant 0 <= done <= |order| == storage.Length
        invariant forall k | 0 <= k < done :: storage[k] == Transform(order[k])
      {
        SlotInOrder(fa, x, y);
        var slot := StorageSlot(fa, x, y);
        assert slot == done;
        storage[slot] := Transform(Pixel(x + fa.x, y + fa.y));
        x, done := x + 1, done + 1;
      }
      NextRow(y, fa.width);
      RowsBelow(y + 1, fa.width, fa.height);
      y := y + 1;
    }
  }

  /** The slot of local pixel (x, y) is in range and is its place in the
      row-major order of the filter area. */
  lemma SlotInOrder(fa: Area, x: int, y: int)
    requires fa.width >= 0 && fa.height >= 0 && InFrame(x, y, fa.width, fa.height)
    ensures 0 <= StorageSlot(fa, x, y) < StorageCount(fa) && StorageCount(fa) == |AreaPixels(fa)|
    ensures AreaPixels(fa)[StorageSlot(fa, x, y)] == Pixel(x + fa.x, y + fa.y)
  {
    RowMajorIndexOf(fa.x, fa.y, fa.width, fa.height, x + fa.x, y + fa.y);
  }

  lemma NextRow(y: int, width: int)
    ensures y * width + width == (y + 1) * width
  {
  }

  lemma RowsBelow(y: int, width: int, height: int)
    requires 0 <= y <= height && width >= 0
    ensures 0 <= y * width <= height * width
  {
    assert height * width - y * width == (height - y) * width;
  }

  /** The offset loop: for each offset of the half window, the weights are
      computed over the rectangle clipped for it, and construct_gramian adds
      the offset's contribution to the XtWX and XtWY slots of the pixels of
      local_filter_rect that lie in that rectangle. */
  method AccumulateGramians(xtwx: array<seq<Contribution>>, xtwy: array<seq<Contribution>>, fa: Area, rect: Rect,
                            hw: nat, weight: int, variance: int, channelStride: int)
    requires fa.width >= 0 && fa.height >= 0
    requires xtwx != xtwy && xtwx.Length == StorageCount(fa) && xtwy.Length == StorageCount(fa)
    requires forall k | 0 <= k < xtwx.Length :: xtwx[k] == [] && xtwy[k] == []
    modifies xtwx, xtwy
    ensures forall k | 0 <= k < xtwx.Length ::
      var p := AreaPixels(LocalFilterArea(fa, rect))[k];
      var cs := SlotContributions(WindowSize(hw), hw, rect.z - rect.x, rect.w - rect.y, p.x, p.y,
                                  weight, variance, channelStride);
      xtwx[k] == cs && xtwy[k] == cs
  {
    var width, height := rect.z - rect.x, rect.w - rect.y;
    var pixels := AreaPixels(LocalFilterArea(fa, rect));
    var i := 0;
    while i < WindowSize(hw)
      invariant 0 <= i <= WindowSize(hw)
      invariant forall k | 0 <= k < xtwx.Length ::
        xtwx[k] == SlotContributions(i, hw, width, height, pixels[k].x, pixels[k].y, weight, variance, channelStride) &&
        xtwy[k] == SlotContributions(i, hw, width, height, pixels[k].x, pixels[k].y, weight, variance, channelStride)
    {
      var o := OffsetAt(i, hw);
      var localRect := LocalRect(o, width, height);
      var c := Contribution(o, localRect, weight, variance, channelStride);
      forall k | 0 <= k < xtwx.Length {
        xtwx[k] := xtwx[k] + (if Contains(localRect, pixels[k].x, pixels[k].y) then [c] else []);
      }
      forall k | 0 <= k < xtwy.Length {
        xtwy[k] := xtwy[k] + (if Contains(localRect, pixels[k].x, pixels[k].y) then [c] else []);
      }
      i := i + 1;
    }
  }

  /** Pixel k of local_filter_rect is pixel k of the filter area moved by the
      corner of the working rectangle. */
  lemma LocalFilterPixels(fa: Area, rect: Rect)
    requires fa.width >= 0 && fa.height >= 0
    ensures |AreaPixels(LocalFilterArea(fa, rect))| == |AreaPixels(fa)|
    ensures forall k | 0 <= k < |AreaPixels(fa)| ::
      AreaPixels(LocalFilterArea(fa, rect))[k] == Pixel(AreaPixels(fa)[k].x - rect.x, AreaPixels(fa)[k].y - rect.y)
  {
    forall k | 0 <= k < |AreaPixels(fa)|
      ensures AreaPixels(LocalFilterArea(fa, rect))[k] == Pixel(AreaPixels(fa)[k].x - rect.x, AreaPixels(fa)[k].y - rect.y)
    {
      RowMajorAt(fa.x, fa.y, fa.width, fa.height, k);
      RowMajorAt(fa.x - rect.x, fa.y - rect.y, fa.width, fa.height, k);
    }
  }

  /** The filter_finalize sweep: each filter-area pixel, in row-major order,
      is finalised from the slot y*filter_area.z + x of all three arrays. */
  method Finalize(fa: Area, storage: array<FilterStorage>, xtwx: array<seq<Contribution>>, xtwy: array<seq<Contribution>>)
    returns (results: seq<Finalized>)
    requires fa.width >= 0 && fa.height >= 0
    requires storage.Length == StorageCount(fa) && xtwx.Length == StorageCount(fa) && xtwy.Length == StorageCount(fa)
    ensures |results| == StorageCount(fa)
    ensures forall k | 0 <= k < |results| ::
      results[k] == Finalized(AreaPixels(fa)[k], k, storage[k], xtwx[k], xtwy[k])
  {
    ghost var order := AreaPixels(fa);
    results := [];
    var y := 0;
    while y < fa.height
      invariant 0 <= y <= fa.height && |results| == y * fa.width
      invariant |results| <= |order| == storage.Length
      invariant forall k | 0 <= k < |results| :: results[k] == Finalized(order[k], k, storage[k], xtwx[k], xtwy[k])
    {
      var x := 0;
      while x < fa.width
        invariant 0 <= x <= fa.width && |results| == y * fa.width + x
        invariant |results| <= |order| == storage.Length
        invariant forall k | 0 <= k < |results| :: results[k] == Finalized(order[k], k, storage[k], xtwx[k], xtwy[k])
      {
        SlotInOrder(fa, x, y);
        var slot := StorageSlot(fa, x, y);
        assert slot == |results|;
        results := results + [Finalized(Pixel(x + fa.x, y + fa.y), slot, storage[slot], xtwx[slot], xtwy[slot])];
        x := x + 1;
      }
      NextRow(y, fa.width);
      RowsBelow(y + 1, fa.width, fa.height);
      y := y + 1;
    }
  }

  /** denoise_run on frame 0 of a filter buffer of `frames` frames over
      `rect`, for the pixels of filter area fa: every filter-area pixel is
      finalised exactly once, in row-major order, with its own transform and
      with normal equations holding, in loop order, each half-window offset
      whose clipped rectangle holds the pixel, computed from colour passes
      16-21 at the fill buffer's pass stride. */
  method DenoiseRun(fa: Area, rect: Rect, hw: nat, frames: int) returns (results: seq<Finalized>)
    requires fa.width >= 0 && fa.height >= 0
    ensures |results| == StorageCount(fa)
    ensures forall k | 0 <= k < |results| ::
      results[k].pixel == AreaPixels(fa)[k] && results[k].slot == k && results[k].storage == Transform(results[k].pixel)
    ensures forall k | 0 <= k < |results| ::
      var w := AlignUp4(rect.z - rect.x);
      var h := rect.w - rect.y;
      var p := results[k].pixel;
      var cs := SlotContributions(WindowSize(hw), hw, rect.z - rect.x, h, p.x - rect.x, p.y - rect.y,
                                  RunOffset(RunWeightPass, w, h, frames), RunOffset(RunVariancePass, w, h, frames),
                                  2 * PassStride(w, h, frames));
      results[k].gramian == cs && results[k].rightHand == cs
  {
    var storageNum := StorageCount(fa);
    var storage := new FilterStorage[storageNum](_ => Unset);
    var w, h := AlignUp4(rect.z - rect.x), rect.w - rect.y;
    var passStride := PassStride(w, h, frames);
    var xtwx := new seq<Contribution>[storageNum](_ => []);
    var xtwy := new seq<Contribution>[storageNum](_ => []);
    ConstructTransforms(storage, fa);
    var weight, variance := RunOffset(RunWeightPass, w, h, frames), RunOffset(RunVariancePass, w, h, frames);
    AccumulateGramians(xtwx, xtwy, fa, rect, hw, weight, variance, 2 * passStride);
    results := Finalize(fa, storage, xtwx, xtwy);
    LocalFilterPixels(fa, rect);
  }
}
