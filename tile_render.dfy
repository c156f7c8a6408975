/** The CPU device's worker threads: the render loop over acquired tiles
    (path tracing with cancel-abort or drain, the overscan denoise, the
    cross-tile denoise), the shader loop, film conversion and the dispatch
    by task type. Kernel calls, progress reports and tile releases are
    recorded, in order, in the DeviceTask's event log; cancellation is read from
    oracle sequences of the answers each check receives. */
module TileRender {
  import opened Geometry

  datatype TileKind = PathTrace | Denoise

  /** A tile as acquire_tile hands it out. `sample` is the value the tile
      carries before this thread touches it; `frames` is the frame count of
      its buffers. */
  datatype TileSpec = TileSpec(x: int, y: int, w: int, h: int,
                               startSample: int, numSamples: int,
                               kind: TileKind, sample: int,
                               overscan: int, frames: int)

  /** The extents read from the neighbour tiles: rtiles[3].x, rtiles[5].x and
      .w, rtiles[1].y, rtiles[7].y and .h. */
  datatype Neighbours = Neighbours(leftX: int, rightX: int, rightW: int,
                                   topY: int, bottomY: int, bottomH: int)

  /** Everything the render loop learns about one acquired tile: the tile,
      the answer of each per-sample cancel check, the answer of
      task.get_cancel() after the sample loop, the neighbour extents and the
      answer of task_pool.canceled() after the release. */
  datatype TileInput = TileInput(spec: TileSpec, cancelAt: seq<bool>,
                                 canceledAfterSamples: bool, neighbours: Neighbours,
                                 poolCanceledAfterRelease: bool)

  datatype Event =
    | PathTraced(sample: int, pixels: seq<Pixel>)          // path_trace over the tile, row by row
    | Progress(tileSample: int, pixelSamples: int)         // update_progress(&tile, w*h)
    | Denoised(sample: int, filterArea: Area, rect: Rect, frames: int)  // fill buffer + regression
    | Released(tile: TileSpec, sample: int)                // release_tile
    | Shaded(sample: int, columns: seq<int>)               // shader kernel over the columns
    | ShaderProgress                                       // update_progress(NULL)
    | Converted(half: bool, pixels: seq<Pixel>, scaleDenominator: int)  // convert_to_half/byte

  datatype TaskKind = Render | FilmConvert | Shader

  /** The DeviceTask a thread works on: its parameters are fixed, its log of
      reports and kernel calls grows. */
  class DeviceTask {
    const kind: TaskKind
    const needFinishQueue: bool
    const x: int
    const y: int
    const w: int
    const h: int
    const sample: int
    const rgbaHalf: bool
    const shaderX: int
    const shaderW: int
    const numSamples: int
    var log: seq<Event>

    method Record(e: Event)
      modifies this
      ensures log == old(log) + [e]
    {
      log := log + [e];
    }

    /** update_progress(&tile, pixels): reports the tile's current sample. */
    method UpdateProgress(tile: RenderTile, pixels: int)
      modifies this
      ensures log == old(log) + [Progress(tile.sample, pixels)]
    {
      log := log + [Progress(tile.sample, pixels)];
    }

    method ReleaseTile(tile: RenderTile)
      modifies this
      ensures log == old(log) + [Released(tile.spec, tile.sample)]
    {
      log := log + [Released(tile.spec, tile.sample)];
    }
  }

  /** The thread's RenderTile: fixed as acquired except for `sample`. */
  class RenderTile {
    const spec: TileSpec
    var sample: int

    constructor (s: TileSpec)
      ensures spec == s && sample == s.sample
    {
      spec := s;
      sample := s.sample;
    }
  }

  // ---------------------------------------------------------------------
  // Pixel sweeps

  /** The columns of a sweep: exactly x0 up to (not including) x0 + width,
      in increasing order, so each of them once and none when the width is
      not positive. */
  function Columns(x0: int, width: int): (xs: seq<int>)
    ensures |xs| == Max(0, width)
    ensures forall x :: x in xs <==> x0 <= x < x0 + width
    ensures forall i, j | 0 <= i < j < |xs| :: xs[i] < xs[j]
  {
    var xs := seq(Max(0, width), i => x0 + i);
    assert forall x | x0 <= x < x0 + width :: x in xs by {
      forall x | x0 <= x < x0 + width
        ensures x in xs
      {
        assert xs[x - x0] == x;
      }
    }
    xs
  }

  /** The `for x` loop of a kernel sweep. */
  method SweepColumns(x0: int, width: int) returns (xs: seq<int>)
    ensures xs == Columns(x0, width)
  {
    xs := [];
    var x := x0;
    while x < x0 + width
      invariant x0 <= x && (x <= x0 + width || x == x0)
      invariant xs == Columns(x0, x - x0)
    {
      xs := xs + [x];
      x := x + 1;
    }
  }

  /** The nested `for y { for x { … } }` loops of a kernel sweep over
      [x0, x0 + width) × [y0, y0 + height): the pixels in row-major order. */
  method SweepPixels(x0: int, y0: int, width: int, height: int) returns (ps: seq<Pixel>)
    ensures ps == RowMajor(x0, y0, Max(0, width), Max(0, height))
  {
    ps := [];
    var y := y0;
    while y < y0 + height
      invariant y0 <= y && (y <= y0 + height || y == y0)
      invariant ps == RowMajor(x0, y0, Max(0, width), y - y0)
    {
      var row := [];
      var x := x0;
      while x < x0 + width
        invariant x0 <= x && (x <= x0 + width || x == x0)
        invariant row == Row(x0, y, x - x0)
      {
        row := row + [Pixel(x, y)];
        x := x + 1;
      }
      ps := ps + row;
      y := y + 1;
    }
  }

  /** The pixels of a tile in the order path_trace visits them. */
  function TilePixels(t: TileSpec): seq<Pixel> {
    RowMajor(t.x, t.y, Max(0, t.w), Max(0, t.h))
  }

  // ---------------------------------------------------------------------
  // Cancellation

  /** The i-th cancel check answered true. */
  predicate Canceled(c: seq<bool>, i: int) {
    0 <= i < |c| && c[i]
  }

  /** The first of n checks that answered true, or n when none did. */
  function FirstCancel(c: seq<bool>, n: nat): (k: nat)
    ensures k <= n
    ensures forall i :: 0 <= i < k ==> !Canceled(c, i)
    ensures k < n ==> Canceled(c, k)
  {
    if n == 0 then 0
    else
      var k := FirstCancel(c, n - 1);
      if k < n - 1 then k else if Canceled(c, n - 1) then n - 1 else n
  }

  /** Number of samples the sample loop renders: all of them when the queue
      must be drained, otherwise those before the first cancel. */
  function Rendered(numSamples: int, drain: bool, c: seq<bool>): (k: nat)
    ensures k <= Max(0, numSamples)
    ensures drain ==> k == Max(0, numSamples)
    ensures !drain ==> (forall i :: 0 <= i < k ==> !Canceled(c, i)) &&
                       (k < Max(0, numSamples) ==> Canceled(c, k))
  {
    if drain then Max(0, numSamples) else FirstCancel(c, Max(0, numSamples))
  }

  // ---------------------------------------------------------------------
  // The sample loop

  /** The log of the first n samples of a path-trace tile: each sample is
      traced over the tile and then reported once, with the tile's sample
      counter already advanced past it. */
  function SampleEvents(t: TileSpec, n: nat): seq<Event> {
    if n == 0 then []
    else SampleEvents(t, n - 1) + [PathTraced(t.startSample + n - 1, TilePixels(t)),
                                   Progress(t.startSample + n, t.w * t.h)]
  }

  /** Sample start + i is traced at position 2i and reported, with tile.sample
      = start + i + 1 and w*h pixel samples, at position 2i + 1. */
  lemma {:induction false} SampleEventsAt(t: TileSpec, n: nat, i: int)
    requires 0 <= i < n
    ensures |SampleEvents(t, n)| == 2 * n
    ensures SampleEvents(t, n)[2 * i] == PathTraced(t.startSample + i, TilePixels(t))
    ensures SampleEvents(t, n)[2 * i + 1] == Progress(t.startSample + i + 1, t.w * t.h)
  {
    SampleEventsLength(t, n - 1);
    if i < n - 1 {
      SampleEventsAt(t, n - 1, i);
    }
  }

  lemma {:induction false} SampleEventsLength(t: TileSpec, n: nat)
    ensures |SampleEvents(t, n)| == 2 * n
  {
    if n > 0 {
      SampleEventsLength(t, n - 1);
    }
  }

  /** The sample loop of a path-trace tile (device_cpu.cpp lines 551-573). */
  method RenderSamples(task: DeviceTask, tile: RenderTile, cancel: seq<bool>) returns (endSample: int)
    modifies task, tile
    ensures endSample == tile.spec.startSample + tile.spec.numSamples
    ensures var n := Rendered(tile.spec.numSamples, task.needFinishQueue, cancel);
      tile.sample == (if n > 0 then tile.spec.startSample + n else old(tile.sample)) &&
      task.log == old(task.log) + SampleEvents(tile.spec, n)
  {
    var start := tile.spec.startSample;
    endSample := start + tile.spec.numSamples;
    var s := start;
    while s < endSample
      invariant start <= s && (s <= endSample || s == start)
      invariant forall i :: 0 <= i < s - start ==> task.needFinishQueue || !Canceled(cancel, i)
      invariant tile.sample == (if s > start then s else old(tile.sample))
      invariant task.log == old(task.log) + SampleEvents(tile.spec, s - start)
    {
      if Canceled(cancel, s - start) {
        if !task.needFinishQueue {
          break;
        }
      }
      var pixels := SweepPixels(tile.spec.x, tile.spec.y, tile.spec.w, tile.spec.h);
      task.Record(PathTraced(s, pixels));
      tile.sample := s + 1;
      task.UpdateProgress(tile, tile.spec.w * tile.spec.h);
      s := s + 1;
    }
  }

  // ---------------------------------------------------------------------
  // Denoising rectangles

  /** The filter area of the overscan denoise: the tile shrunk by the
      overscan on every side. */
  function OverscanArea(t: TileSpec): (a: Area)
    ensures forall x, y :: InArea(a, x, y) <==>
      t.x + t.overscan <= x < t.x + t.w - t.overscan && t.y + t.overscan <= y < t.y + t.h - t.overscan
  {
    Area(t.x + t.overscan, t.y + t.overscan, t.w - 2 * t.overscan, t.h - 2 * t.overscan)
  }

  /** The tile as corners. */
  function TileRect(t: TileSpec): Rect {
    Rect(t.x, t.y, t.x + t.w, t.y + t.h)
  }

  /** With an overscan 0 <= o and 2o <= w, h the filter area lies inside the
      working rectangle, and is exactly the pixels of the tile that are at
      least o away from each of its edges. */
  lemma OverscanAreaInsideRect(t: TileSpec)
    requires 0 <= t.overscan && 2 * t.overscan <= t.w && 2 * t.overscan <= t.h
    ensures forall x, y :: InArea(OverscanArea(t), x, y) ==> Contains(TileRect(t), x, y)
    ensures forall x, y :: InArea(OverscanArea(t), x, y) <==>
      Contains(TileRect(t), x, y) &&
      t.x + t.overscan <= x < t.x + t.w - t.overscan && t.y + t.overscan <= y < t.y + t.h - t.overscan
  {
  }

  /** The extent of the 3 × 3 neighbourhood: tile_x = {rtiles[3].x, tile.x,
      rtiles[5].x, rtiles[5].x + rtiles[5].w}, likewise tile_y. */
  function NeighbourX(t: TileSpec, nb: Neighbours): seq<int> {
    [nb.leftX, t.x, nb.rightX, nb.rightX + nb.rightW]
  }

  function NeighbourY(t: TileSpec, nb: Neighbours): seq<int> {
    [nb.topY, t.y, nb.bottomY, nb.bottomY + nb.bottomH]
  }

  /** The working rectangle of the cross-tile denoise: the tile grown by the
      half window (one more on the far sides), cut to the neighbourhood. */
  function DenoiseRect(t: TileSpec, nb: Neighbours, hw: int): (r: Rect)
    ensures NeighbourX(t, nb)[0] <= r.x && t.x - hw <= r.x
    ensures r.z <= NeighbourX(t, nb)[3] && r.z <= t.x + t.w + hw + 1
    ensures NeighbourY(t, nb)[0] <= r.y && t.y - hw <= r.y
    ensures r.w <= NeighbourY(t, nb)[3] && r.w <= t.y + t.h + hw + 1
  {
    var tx := NeighbourX(t, nb);
    var ty := NeighbourY(t, nb);
    Rect(Max(t.x - hw, tx[0]), Max(t.y - hw, ty[0]),
         Min(t.x + t.w + hw + 1, tx[3]), Min(t.y + t.h + hw + 1, ty[3]))
  }

  /** The working rectangle is exactly the intersection of the neighbourhood
      with the tile's halo. */
  lemma DenoiseRectIsIntersection(t: TileSpec, nb: Neighbours, hw: int, x: int, y: int)
    ensures Contains(DenoiseRect(t, nb, hw), x, y) <==>
      Contains(Rect(nb.leftX, nb.topY, nb.rightX + nb.rightW, nb.bottomY + nb.bottomH), x, y) &&
      Contains(Rect(t.x - hw, t.y - hw, t.x + t.w + hw + 1, t.y + t.h + hw + 1), x, y)
  {
  }

  /** When the neighbourhood surrounds the tile and hw >= 0, the working
      rectangle contains every pixel of the tile. */
  lemma DenoiseRectContainsTile(t: TileSpec, nb: Neighbours, hw: int, x: int, y: int)
    requires hw >= 0
    requires nb.leftX <= t.x && t.x + t.w <= nb.rightX + nb.rightW
    requires nb.topY <= t.y && t.y + t.h <= nb.bottomY + nb.bottomH
    requires Contains(TileRect(t), x, y)
    ensures Contains(DenoiseRect(t, nb, hw), x, y)
  {
    DenoiseRectIsIntersection(t, nb, hw, x, y);
  }

  // ---------------------------------------------------------------------
  // One tile

  /** The log of one acquired tile, ending with its release. */
  function TileEvents(input: TileInput, drain: bool, hw: int): (log: seq<Event>)
    ensures |log| > 0 && log[|log| - 1].Released? && log[|log| - 1].tile == input.spec
  {
    var t := input.spec;
    match t.kind
    case PathTrace =>
      var n := Rendered(t.numSamples, drain, input.cancelAt);
      var denoise := if t.overscan != 0 && !input.canceledAfterSamples
        then [Denoised(t.startSample + t.numSamples, OverscanArea(t), TileRect(t), t.frames)]
        else [];
      SampleEvents(t, n) + denoise + [Released(t, if n > 0 then t.startSample + n else t.sample)]
    case Denoise =>
      var s := t.startSample + t.numSamples;
      [Denoised(s, Area(t.x, t.y, t.w, t.h), DenoiseRect(t, input.neighbours, hw), t.frames),
       Progress(s, t.w * t.h),
       Released(t, s)]
  }

  /** The loop leaves after this tile's release. */
  predicate StopsAfter(input: TileInput, drain: bool) {
    input.poolCanceledAfterRelease && !drain
  }

  /** The body of the tile loop (device_cpu.cpp lines 544-635) for one acquired tile. */
  method RenderTileOnce(task: DeviceTask, input: TileInput, hw: int) returns (stop: bool)
    modifies task
    ensures task.log == old(task.log) + TileEvents(input, task.needFinishQueue, hw)
    ensures stop == StopsAfter(input, task.needFinishQueue)
  {
    var tile := new RenderTile(input.spec);
    if tile.spec.kind == PathTrace {
      var endSample := RenderSamples(task, tile, input.cancelAt);
      if tile.spec.overscan != 0 && !input.canceledAfterSamples {
        var filterArea := OverscanArea(tile.spec);
        var rect := TileRect(tile.spec);
        task.Record(Denoised(endSample, filterArea, rect, tile.spec.frames));
      }
    } else {
      var sample := tile.spec.startSample + tile.spec.numSamples;
      var rect := DenoiseRect(tile.spec, input.neighbours, hw);
      var filterArea := Area(tile.spec.x, tile.spec.y, tile.spec.w, tile.spec.h);
      task.Record(Denoised(sample, filterArea, rect, tile.spec.frames));
      tile.sample := sample;
      task.UpdateProgress(tile, tile.spec.w * tile.spec.h);
    }
    task.ReleaseTile(tile);
    stop := input.poolCanceledAfterRelease && !task.needFinishQueue;
  }

  // ---------------------------------------------------------------------
  // The tile loop

  /** The log of a loop whose i-th turn logs logs[i] and leaves the loop
      when stops[i] holds, from turn i on. */
  function LoopLog(logs: seq<seq<Event>>, stops: seq<bool>, i: int): seq<Event>
    requires |stops| == |logs| && 0 <= i <= |logs|
    decreases |logs| - i
  {
    if i == |logs| then []
    else logs[i] + (if stops[i] then [] else LoopLog(logs, stops, i + 1))
  }

  /** Number of turns such a loop takes from turn i on. */
  function Turns(stops: seq<bool>, i: int): (n: nat)
    requires 0 <= i <= |stops|
    ensures n <= |stops| - i
    ensures (forall j :: i <= j < |stops| ==> !stops[j]) ==> n == |stops| - i
    ensures forall j :: i <= j < i + n - 1 ==> !stops[j]
    ensures i + n < |stops| ==> n > 0 && stops[i + n - 1]
    decreases |stops| - i
  {
    if i == |stops| then 0
    else if stops[i] then 1
    else 1 + Turns(stops, i + 1)
  }

  /** The log of each of the first n acquired tiles. */
  function TileLogs(tiles: seq<TileInput>, n: nat, drain: bool, hw: int): (logs: seq<seq<Event>>)
    requires n <= |tiles|
    ensures |logs| == n
  {
    if n == 0 then [] else TileLogs(tiles, n - 1, drain, hw) + [TileEvents(tiles[n - 1], drain, hw)]
  }

  lemma {:induction false} TileLogsAt(tiles: seq<TileInput>, n: nat, drain: bool, hw: int, j: int)
    requires 0 <= j < n <= |tiles|
    ensures TileLogs(tiles, n, drain, hw)[j] == TileEvents(tiles[j], drain, hw)
  {
    if j < n - 1 {
      TileLogsAt(tiles, n - 1, drain, hw, j);
    }
  }

  /** Whether the loop leaves after each acquired tile. */
  function StopFlags(tiles: seq<TileInput>, drain: bool): seq<bool> {
    seq(|tiles|, j requires 0 <= j < |tiles| => StopsAfter(tiles[j], drain))
  }

  /** The log of the tile loop over the tiles acquire_tile hands out. */
  function ThreadEvents(tiles: seq<TileInput>, drain: bool, hw: int): seq<Event> {
    LoopLog(TileLogs(tiles, |tiles|, drain, hw), StopFlags(tiles, drain), 0)
  }

  /** Number of tiles the loop processes. */
  function Processed(tiles: seq<TileInput>, drain: bool): nat {
    Turns(StopFlags(tiles, drain), 0)
  }

  /** thread_render (lines 533-639): nothing when the pool is already
      cancelled and the queue need not be drained, otherwise the tile loop. */
  function RenderEvents(tiles: seq<TileInput>, poolCanceledAtStart: bool, drain: bool, hw: int): seq<Event> {
    if poolCanceledAtStart && !drain then [] else ThreadEvents(tiles, drain, hw)
  }

  method ThreadRender(task: DeviceTask, tiles: seq<TileInput>, poolCanceledAtStart: bool, hw: int)
    modifies task
    ensures task.log == old(task.log) + RenderEvents(tiles, poolCanceledAtStart, task.needFinishQueue, hw)
  {
    if poolCanceledAtStart {
      if !task.needFinishQueue {
        assert task.log == old(task.log) + [];
        return;
      }
    }
    ghost var logs := TileLogs(tiles, |tiles|, task.needFinishQueue, hw);
    forall j | 0 <= j < |tiles|
      ensures logs[j] == TileEvents(tiles[j], task.needFinishQueue, hw)
    {
      TileLogsAt(tiles, |tiles|, task.needFinishQueue, hw, j);
    }
    TileLoop(task, tiles, hw, logs, StopFlags(tiles, task.needFinishQueue));
  }

  /** The `while(task.acquire_tile(...))` loop, against the log of each tile. */
  method TileLoop(task: DeviceTask, tiles: seq<TileInput>, hw: int, ghost logs: seq<seq<Event>>, ghost stops: seq<bool>)
    requires |logs| == |tiles| && |stops| == |tiles|
    requires forall j {:trigger TileEvents(tiles[j], task.needFinishQueue, hw)} :: 0 <= j < |tiles| ==>
      logs[j] == TileEvents(tiles[j], task.needFinishQueue, hw)
    requires forall j :: 0 <= j < |tiles| ==> stops[j] == StopsAfter(tiles[j], task.needFinishQueue)
    modifies task
    ensures task.log == old(task.log) + LoopLog(logs, stops, 0)
  {
    ghost var all := LoopLog(logs, stops, 0);
    var i := 0;
    var stop := false;
    ghost var done: seq<Event> := [];
    while i < |tiles| && !stop
      invariant 0 <= i <= |tiles|
      invariant task.log == old(task.log) + done
      invariant stop ==> done == all
      invariant !stop ==> done + LoopLog(logs, stops, i) == all
      decreases |tiles| - i, if stop then 0 else 1
    {
      ghost var head := logs[i];
      stop := RenderTileOnce(task, tiles[i], hw);
      Regroup(old(task.log), done, head);
      if !stop {
        Regroup(done, head, LoopLog(logs, stops, i + 1));
        i := i + 1;
      }
      done := done + head;
    }
  }

  lemma Regroup(a: seq<Event>, b: seq<Event>, c: seq<Event>)
    ensures a + (b + c) == (a + b) + c
  {
  }

  /** The tiles released, in the order of the log. */
  function Releases(log: seq<Event>): seq<TileSpec> {
    if |log| == 0 then []
    else (if log[0].Released? then [log[0].tile] else []) + Releases(log[1..])
  }

  lemma {:induction false} ReleasesAppend(a: seq<Event>, b: seq<Event>)
    ensures Releases(a + b) == Releases(a) + Releases(b)
  {
    if |a| > 0 {
      assert (a + b)[1..] == a[1..] + b;
      ReleasesAppend(a[1..], b);
    } else {
      assert a + b == b;
    }
  }

  lemma {:induction false} SampleEventsReleaseNothing(t: TileSpec, n: nat)
    ensures Releases(SampleEvents(t, n)) == []
  {
    if n > 0 {
      var last := [PathTraced(t.startSample + n - 1, TilePixels(t)), Progress(t.startSample + n, t.w * t.h)];
      SampleEventsReleaseNothing(t, n - 1);
      ReleasesAppend(SampleEvents(t, n - 1), last);
      assert Releases(last[1..][1..]) == [] by { assert last[1..][1..] == []; }
      assert Releases(last[1..]) == [];
    }
  }

  /** Each acquired tile is released exactly once, at the end of its events. */
  lemma TileReleasedOnce(input: TileInput, drain: bool, hw: int)
    ensures Releases(TileEvents(input, drain, hw)) == [input.spec]
    ensures TileEvents(input, drain, hw)[|TileEvents(input, drain, hw)| - 1].Released?
  {
    var t := input.spec;
    var events := TileEvents(input, drain, hw);
    match t.kind
    case PathTrace =>
      var n := Rendered(t.numSamples, drain, input.cancelAt);
      var denoise := if t.overscan != 0 && !input.canceledAfterSamples
        then [Denoised(t.startSample + t.numSamples, OverscanArea(t), TileRect(t), t.frames)]
        else [];
      var release := [Released(t, if n > 0 then t.startSample + n else t.sample)];
      SampleEventsReleaseNothing(t, n);
      ReleasesAppend(SampleEvents(t, n), denoise);
      ReleasesAppend(SampleEvents(t, n) + denoise, release);
      if |denoise| > 0 {
        assert Releases(denoise[1..]) == [] by { assert denoise[1..] == []; }
      }
      assert Releases(release[1..]) == [] by { assert release[1..] == []; }
    case Denoise =>
      assert Releases(events[1..][1..][1..]) == [] by { assert events[1..][1..][1..] == []; }
      assert Releases(events[1..][1..]) == [t];
      assert Releases(events[1..]) == [t];
  }

  /** A loop whose every turn releases exactly one tile releases, in order,
      the tiles of the turns it takes. */
  lemma {:induction false} LoopReleases(logs: seq<seq<Event>>, stops: seq<bool>, specs: seq<TileSpec>, i: int)
    requires |stops| == |logs| == |specs| && 0 <= i <= |logs|
    requires forall j :: 0 <= j < |logs| ==> Releases(logs[j]) == [specs[j]]
    ensures Releases(LoopLog(logs, stops, i)) == specs[i..i + Turns(stops, i)]
    decreases |logs| - i
  {
    if i < |logs| {
      var rest := if stops[i] then [] else LoopLog(logs, stops, i + 1);
      assert Releases(LoopLog(logs, stops, i)) == [specs[i]] + Releases(rest) by {
        assert LoopLog(logs, stops, i) == logs[i] + rest;
        ReleasesAppend(logs[i], rest);
      }
      if stops[i] {
        assert specs[i..i + 1] == [specs[i]];
      } else {
        LoopReleases(logs, stops, specs, i + 1);
        var n := Turns(stops, i + 1);
        assert specs[i..i + 1 + n] == [specs[i]] + specs[i + 1..i + 1 + n];
      }
    }
  }

  /** The specifications of the acquired tiles, in order. */
  function Specs(tiles: seq<TileInput>): (specs: seq<TileSpec>)
    ensures |specs| == |tiles|
    ensures forall j :: 0 <= j < |tiles| ==> specs[j] == tiles[j].spec
  {
    seq(|tiles|, j requires 0 <= j < |tiles| => tiles[j].spec)
  }

  lemma TileLogsReleaseOnce(tiles: seq<TileInput>, drain: bool, hw: int)
    ensures forall j :: 0 <= j < |tiles| ==> Releases(TileLogs(tiles, |tiles|, drain, hw)[j]) == [Specs(tiles)[j]]
  {
    forall j | 0 <= j < |tiles|
      ensures Releases(TileLogs(tiles, |tiles|, drain, hw)[j]) == [Specs(tiles)[j]]
    {
      TileLogsAt(tiles, |tiles|, drain, hw, j);
      TileReleasedOnce(tiles[j], drain, hw);
    }
  }

  /** The tile loop releases exactly the tiles it processes, each once and in
      the order acquired. */
  lemma ThreadReleasesProcessed(tiles: seq<TileInput>, drain: bool, hw: int)
    ensures Releases(ThreadEvents(tiles, drain, hw)) == Specs(tiles)[..Processed(tiles, drain)]
  {
    TileLogsReleaseOnce(tiles, drain, hw);
    LoopReleases(TileLogs(tiles, |tiles|, drain, hw), StopFlags(tiles, drain), Specs(tiles), 0);
  }

  /** When the queue is drained every acquired tile is processed. */
  lemma DrainProcessesAll(tiles: seq<TileInput>)
    ensures Processed(tiles, true) == |tiles|
  {
    var stops := StopFlags(tiles, true);
    assert forall j :: 0 <= j < |tiles| ==> !stops[j];
  }

  /** Without draining, the loop leaves exactly after the first tile whose
      release found the pool cancelled. */
  lemma ProcessedStopsAtCancel(tiles: seq<TileInput>, hw: int)
    ensures forall j :: 0 <= j < Processed(tiles, false) - 1 ==> !tiles[j].poolCanceledAfterRelease
    ensures Processed(tiles, false) < |tiles| ==> tiles[Processed(tiles, false) - 1].poolCanceledAfterRelease
  {
    var stops := StopFlags(tiles, false);
    assert forall j :: 0 <= j < |tiles| ==> stops[j] == tiles[j].poolCanceledAfterRelease;
  }

  // ---------------------------------------------------------------------
  // Shader evaluation

  /** The first m samples of the shader loop, none of them cancelled: each
      is shaded over the columns and then reported. */
  function ShaderRounds(x0: int, width: int, m: nat): (log: seq<Event>)
    ensures |log| == 2 * m
  {
    if m == 0 then []
    else ShaderRounds(x0, width, m - 1) + [Shaded(m - 1, Columns(x0, width)), ShaderProgress]
  }

  /** thread_shader: samples up to and including the first cancelled one are
      shaded; only those before it report progress. */
  function ShaderEvents(x0: int, width: int, numSamples: int, c: seq<bool>): (log: seq<Event>)
    ensures var k := FirstCancel(c, Max(0, numSamples));
      |log| == 2 * k + (if k < Max(0, numSamples) then 1 else 0) &&
      (forall s | 0 <= s < k :: log[2 * s] == Shaded(s, Columns(x0, width)) && log[2 * s + 1] == ShaderProgress) &&
      (k < Max(0, numSamples) ==> log[|log| - 1] == Shaded(k, Columns(x0, width)))
  {
    var k := FirstCancel(c, Max(0, numSamples));
    var log := ShaderRounds(x0, width, k) + (if k < Max(0, numSamples) then [Shaded(k, Columns(x0, width))] else []);
    assert forall s | 0 <= s < k :: log[2 * s] == Shaded(s, Columns(x0, width)) && log[2 * s + 1] == ShaderProgress by {
      forall s | 0 <= s < k
        ensures log[2 * s] == Shaded(s, Columns(x0, width)) && log[2 * s + 1] == ShaderProgress
      {
        ShaderRoundsAt(x0, width, k, s);
      }
    }
    log
  }

  /** Sample s of the shader loop is shaded at position 2s and reported at 2s + 1. */
  lemma {:induction false} ShaderRoundsAt(x0: int, width: int, m: nat, s: int)
    requires 0 <= s < m
    ensures ShaderRounds(x0, width, m)[2 * s] == Shaded(s, Columns(x0, width))
    ensures ShaderRounds(x0, width, m)[2 * s + 1] == ShaderProgress
  {
    if s < m - 1 {
      ShaderRoundsAt(x0, width, m - 1, s);
    }
  }

  /** The shader loop (lines 660-689); the cancel check follows the kernel
      sweep of each sample. */
  method ThreadShader(task: DeviceTask, cancel: seq<bool>)
    modifies task
    ensures task.log == old(task.log) + ShaderEvents(task.shaderX, task.shaderW, task.numSamples, cancel)
  {
    var s := 0;
    while s < task.numSamples
      invariant 0 <= s && (s <= task.numSamples || s == 0)
      invariant forall i :: 0 <= i < s ==> !Canceled(cancel, i)
      invariant task.log == old(task.log) + ShaderRounds(task.shaderX, task.shaderW, s)
    {
      var columns := SweepColumns(task.shaderX, task.shaderW);
      task.Record(Shaded(s, columns));
      if Canceled(cancel, s) {
        break;
      }
      task.Record(ShaderProgress);
      s := s + 1;
    }
  }

  // ---------------------------------------------------------------------
  // Film conversion

  /** thread_film_convert (lines 641-658): the half-float kernel when a half
      buffer is given, the byte kernel otherwise, over the DeviceTask's area in
      row-major order, scaled by 1/(sample + 1). */
  method ThreadFilmConvert(task: DeviceTask)
    modifies task
    ensures task.log == old(task.log) +
      [Converted(task.rgbaHalf, RowMajor(task.x, task.y, Max(0, task.w), Max(0, task.h)), task.sample + 1)]
  {
    var scaleDenominator := task.sample + 1;
    if task.rgbaHalf {
      var pixels := SweepPixels(task.x, task.y, task.w, task.h);
      task.Record(Converted(true, pixels, scaleDenominator));
    } else {
      var pixels := SweepPixels(task.x, task.y, task.w, task.h);
      task.Record(Converted(false, pixels, scaleDenominator));
    }
  }

  // ---------------------------------------------------------------------
  // Dispatch

  /** thread_run (lines 273-281): each task type goes to its own loop. */
  method ThreadRun(task: DeviceTask, tiles: seq<TileInput>, poolCanceledAtStart: bool, hw: int, cancel: seq<bool>)
    modifies task
    ensures task.kind == Render ==>
      task.log == old(task.log) + RenderEvents(tiles, poolCanceledAtStart, task.needFinishQueue, hw)
    ensures task.kind == FilmConvert ==>
      task.log == old(task.log) +
        [Converted(task.rgbaHalf, RowMajor(task.x, task.y, Max(0, task.w), Max(0, task.h)), task.sample + 1)]
    ensures task.kind == Shader ==>
      task.log == old(task.log) + ShaderEvents(task.shaderX, task.shaderW, task.numSamples, cancel)
  {
    if task.kind == Render {
      ThreadRender(task, tiles, poolCanceledAtStart, hw);
    } else if task.kind == FilmConvert {
      ThreadFilmConvert(task);
    } else {
      ThreadShader(task, cancel);
    }
  }
}
