# Cycles CPU device: a verified model

This project models the CPU render device of the Cycles renderer
(`intern/cycles/device/device_cpu.cpp`). The model covers the integer and
control logic of the device. The floating-point kernels it calls are opaque:
the model records which kernel runs and on which pixels, passes and offsets.
It does not model the numbers a kernel computes.

The modules follow the parts of the device:

- `KernelDispatch` (dispatch.dfy) models the `KernelFunctions` tables.
  - Each table binds the kernel of the highest instruction-set tier that is
    both compiled in and supported by the CPU.
  - The process-wide `logged_architecture` latch announces that choice at
    most once.
  - The dangling `else` of the `#ifdef` chain is modelled as written.
- `Geometry` (geometry.dfy) models the shared index arithmetic:
  - the search-window offsets `(dx, dy)` decoded from a loop counter;
  - the clipped `local_rect` of one offset;
  - the padded row width `align_up(w, 4)`;
  - row-major pixel order.
- `FilterLayout` (filter_layout.dfy) models the layout of the denoising
  filter buffer:
  - pass stride, pass count and flat offsets;
  - the `mean_from` / `variance_from` / `offset_to` routing tables;
  - which passes are scratch and which are results;
  - the documented meaning of each pass.
- `FeaturePrefilter` (prefilter.dfy) models `non_local_means` and
  `denoise_fill_buffer` on whole planes. The buffer is an `array2` indexed by
  pass and frame, and each cell says what the plane holds and where it came
  from.
- `Regression` (regression.dfy) models `denoise_run`:
  - the storage slots;
  - the per-offset accumulation of the normal equations;
  - the finalisation sweep.
- `TileRender` (tile_render.dfy) models the worker threads:
  - `thread_render`: the sample loop with cancel-abort or drain, the
    overscan denoise, the cross-tile denoise rectangle and the tile loop;
  - `thread_shader`;
  - `thread_film_convert`;
  - `thread_run`.

  Kernel calls, progress reports and tile releases are appended, in order,
  to the DeviceTask's event log. Cancellation is an oracle: the sequence of
  answers that the cancel checks receive.
- `Capabilities` (capabilities.dfy) models `device_cpu_capabilities`, both as
  written and corrected.
- `DeviceMemory` (memory.dfy) models the `mem_*` and `tex_*` bookkeeping
  against an abstract statistics counter.
- `Wrappers` (wrappers.dfy) holds the `Option` type shared by the pass
  tables and the capability string.

## Model

| member | source | states |
|---|---|---|
| KernelDispatch.SelectTier | intern/cycles/device/device_cpu.cpp:74-107 | The chosen tier is compiled in and supported by the CPU, or it is the default. No higher tier is both. The default is chosen exactly when no optimised tier is usable. |
| KernelDispatch.ArchitectureLog.constructor | intern/cycles/device/device_cpu.cpp:52 | The latch starts cleared and nothing has been logged. |
| KernelDispatch.KernelFunctions.constructor | intern/cycles/device/device_cpu.cpp:57-113 | The bound kernel is the selected tier's implementation. The latch is set and one notice naming that tier is logged exactly when the latch was clear and control reaches the log block. Otherwise the log is unchanged. |
| KernelDispatch.NoticeReached | intern/cycles/device/device_cpu.cpp:74-112 | Whether control reaches the `if(!logged_architecture)` block. It agrees, on every combination of compiled-in tiers and CPU answers, with LogBlockReached on the constructor's five tests. |
| KernelDispatch.ChainUnrolled | intern/cycles/device/device_cpu.cpp:74-112 | Unrolled test by test, the #ifdef chain reaches the log block exactly when SSE2 is compiled in or no compiled tier's probe succeeds. |
| KernelDispatch.KernelFunctions.Call | intern/cycles/device/device_cpu.cpp:115-117 | operator() returns the implementation of the tier chosen when the table was built, the same one on every call. |
| KernelDispatch.CpuDeviceKernels | intern/cycles/device/device_cpu.cpp:160-178 | Building all the tables binds every table to the same selected tier. However many tables are built, at most one notice is logged: none if the latch was already set or the block is unreachable, exactly one otherwise. |
| KernelDispatch.NoticeReachedWhenChainEnds | intern/cycles/device/device_cpu.cpp:102-112 | With SSE2 compiled in, or no optimised tier compiled, the log block is always reached. |
| KernelDispatch.NoticeSkippedByDanglingElse | intern/cycles/device/device_cpu.cpp:74-112 | With SSE2 compiled out, the log block is reached if and only if no compiled tier is supported. A CPU that takes an optimised tier never logs its choice. |
| Geometry.AlignUp4 | intern/cycles/device/device_cpu.cpp:294 | The padded width is a multiple of 4, at least the width and less than the width plus 4. |
| Geometry.OffsetAt | intern/cycles/device/device_cpu.cpp:300-302 | Iteration i decodes to an offset inside the (2r+1)×(2r+1) window whose loop position is i again. |
| Geometry.OffsetIndexVisits | intern/cycles/device/device_cpu.cpp:300-302 | Every offset of the window is visited, at the iteration given by its loop position. |
| Geometry.OffsetAtInjective | intern/cycles/device/device_cpu.cpp:300-302 | Two iterations never visit the same offset, so the loop is a bijection onto the window. |
| Geometry.ZeroOffsetVisited | intern/cycles/device/device_cpu.cpp:300-302 | The zero offset is one of the iterations, and the iteration that visits it is named. |
| Geometry.WindowOffsets | intern/cycles/device/device_cpu.cpp:300-302 | The offsets in loop order: (2r+1)² of them, each inside the window and at its own loop position. |
| Geometry.LocalRect | intern/cycles/device/device_cpu.cpp:304 | A pixel is in the clipped rectangle of an offset if and only if both it and its shifted neighbour lie in the W×H frame. |
| Geometry.PaddedIndexInBounds | intern/cycles/device/device_cpu.cpp:294-295 | A frame pixel's index y*w + x, with w the padded width, lies in [0, w*h). |
| Geometry.LocalRectIndicesInBounds | intern/cycles/device/device_cpu.cpp:294-305 | For a pixel of the clipped rectangle, the index of the pixel and the index of its shifted neighbour both lie inside the padded buffer. |
| Geometry.Row | intern/cycles/device/device_cpu.cpp:561-564 | One row of a sweep holds exactly the pixels x0 … x0+width-1 of row y, in increasing x, so each of them once. |
| Geometry.RowMajor | intern/cycles/device/device_cpu.cpp:560-565 | A nested y/x sweep visits width*rows pixels. |
| Geometry.RowMajorAt | intern/cycles/device/device_cpu.cpp:560-565 | The k-th pixel of the sweep is (x0 + k mod width, y0 + k div width), so sweep order agrees with the storage index. |
| Geometry.RowMajorIndexOf | intern/cycles/device/device_cpu.cpp:521-525 | Each pixel of the area appears in the sweep at index (y-y0)*width + (x-x0). |
| Geometry.RowMajorMembers | intern/cycles/device/device_cpu.cpp:560-565 | A pixel is in the sweep if and only if it lies in the area. |
| Geometry.RowMajorDistinct | intern/cycles/device/device_cpu.cpp:560-565 | No pixel is visited twice. |
| FilterLayout.FilterIndexNested | intern/cycles/device/device_cpu.cpp:319-337 | The float of pass p, frame fr, pixel (x, y) is p*pass_stride + w*h*fr + y*w + x. It equals the mixed-radix number ((p*frames + fr)*h + y)*w + x. |
| FilterLayout.PassStride | intern/cycles/device/device_cpu.cpp:318-320 | A pass holds every frame's w × h image and is never negative in size. The last frame's image ends exactly where the next pass begins. |
| FilterLayout.FilterIndex | intern/cycles/device/device_cpu.cpp:320-337 | A pixel of any frame of pass p lies between PASSPTR(p) and PASSPTR(p + 1). |
| FilterLayout.NestedBound | intern/cycles/device/device_cpu.cpp:320-323 | That mixed-radix offset lies below passes*pass_stride, the allocated size. |
| FilterLayout.FilterIndexRoundTrip | intern/cycles/device/device_cpu.cpp:319-337 | Every in-range (pass, frame, pixel) has an offset inside the allocation, and the offset decodes back to it. No two of them share a float. |
| FilterLayout.FeatureRow | intern/cycles/device/device_cpu.cpp:424 | Inverse of offset_to: for each feature pair j other than the shadow's, it names the step-2 row whose target is pass 2j. |
| FilterLayout.FeatureRowInverts | intern/cycles/device/device_cpu.cpp:424 | Every step-2 target is even, below 16 and not the shadow pass. Its row is found again from it. |
| FilterLayout.ColorTargetsConsecutive | intern/cycles/device/device_cpu.cpp:446-469 | The colour targets of step 3 are 16 + 2i. There are 3 of them, or 6 with cross denoising. |
| FilterLayout.Pairs | intern/cycles/device/device_cpu.cpp:428-431 | Each target t is written as the pair (t, t+1): the mean at t and the variance at t+1. |
| FilterLayout.PairsOfTargets | intern/cycles/device/device_cpu.cpp:422-469 | The pairs written by step 2 and step 3, spelled out for both colour modes. |
| FilterLayout.PairsOfFeatureTargets | intern/cycles/device/device_cpu.cpp:424-431 | Step 2 writes passes 0-5, 10-15 and 6-7, in that order. |
| FilterLayout.PairsOfColorTargets | intern/cycles/device/device_cpu.cpp:459-465 | Without cross denoising, step 3 writes passes 16-21. |
| FilterLayout.PairsOfCrossColorTargets | intern/cycles/device/device_cpu.cpp:447-453 | With cross denoising, step 3 writes passes 16-27. |
| FilterLayout.FinalWritesPartition | intern/cycles/device/device_cpu.cpp:321-469 | The final writes of the three steps partition the buffer. There are as many as the pass count (22 or 28), none is repeated, and together they are exactly the passes 0 … passes-1. |
| FilterLayout.ScratchAliasesNoResult | intern/cycles/device/device_cpu.cpp:342-411 | Step 2's scratch passes 16-19 are none of the passes steps 1 and 2 leave as results. Every scratch pass of step 1 is overwritten by a step-2 result. |
| FilterLayout.FeatureTablesFollowLayout | intern/cycles/device/device_cpu.cpp:412-424 | Row i of step 2 reads one render-buffer feature's mean and variance. It writes the mean and the variance to the passes the documented layout assigns to that feature. |
| FilterLayout.ColorTablesFollowLayout | intern/cycles/device/device_cpu.cpp:446-461 | The same holds for every colour row of step 3, in both modes. |
| FilterLayout.ShadowFollowsLayout | intern/cycles/device/device_cpu.cpp:396-418 | Passes 8 and 9, where step 1 leaves its result, are the shadow mean and the shadow variance in the documented layout. |
| FilterLayout.RunPassesAreColorR | intern/cycles/device/device_cpu.cpp:502-503 | The weight and variance passes that denoise_run reads (16 and 17) are colour R's mean and variance. |
| FilterLayout.RunOffsetAsWrittenLandsIn | intern/cycles/device/device_cpu.cpp:485-503 | With denoise_run's stride w*h, pass q starts at plane (q / frames, q mod frames) of the fill buffer, not at pass q. |
| FilterLayout.RunReadsShadowWithTwoFrames | intern/cycles/device/device_cpu.cpp:485-503 | With two frames, denoise_run's weight and variance pointers land on the shadow feature of frames 0 and 1, which is not colour R. |
| FilterLayout.RunOffset | intern/cycles/device/device_cpu.cpp:502-503 | Corrected: pass q read with the fill buffer's stride is pass q of frame 0. |
| FilterLayout.RunStridesAgree | intern/cycles/device/device_cpu.cpp:485 | The written offset and the corrected offset agree if and only if there is one frame (for a non-empty plane and q > 0). |
| FeaturePrefilter.NonLocalMeans | intern/cycles/device/device_cpu.cpp:292-314 | After the call, out holds the image smoothed with the given weight and variance guides over the whole window, and weightAccum holds the total weight. The two temporaries hold the last offset's intermediates, and the weights are those of the last offset over the rectangle clipped for it. Every other plane of the frame, and every other frame, is unchanged, including the image and guide planes that were read. |
| FeaturePrefilter.Clipped | intern/cycles/device/device_cpu.cpp:304 | local_rect for one offset holds exactly the pixels that lie in the working rectangle together with their neighbour at that offset. |
| FeaturePrefilter.LastOffset | intern/cycles/device/device_cpu.cpp:300-302 | The window loop ends at offset (r, r). |
| FeaturePrefilter.DivideShadow | intern/cycles/device/device_cpu.cpp:347-351 | divide_shadow writes the two shadow halves to passes 4/5 and the sample variance, its variance and the buffer variance to passes 0-2. It writes nothing else. |
| FeaturePrefilter.FilterHalves | intern/cycles/device/device_cpu.cpp:361-369 | cleanV is the buffer variance smoothed with the sample variance as guide. Each half is filtered with the other half as guide and cleanV as variance. Only passes 0, 2, 3 and the temporaries change. |
| FeaturePrefilter.RefineHalves | intern/cycles/device/device_cpu.cpp:375-387 | The residual variance of the filtered halves goes to pass 1. Both halves are filtered again with it, into passes 4/5. |
| FeaturePrefilter.PrefilterShadow | intern/cycles/device/device_cpu.cpp:339-405 | Step 1 leaves the shadow mean and variance, combined from the twice-filtered halves, in passes 8/9. Its scratch passes end as described, and no other pass or frame changes. |
| FeaturePrefilter.PrefilterFeature | intern/cycles/device/device_cpu.cpp:425-431 | Row i of step 2 leaves the feature filtered by itself, with its variance as guide, in offset_to[i]. The variance goes to offset_to[i]+1. Only those and the scratch passes 16-19 change. |
| FeaturePrefilter.FeaturePlaneOfRow | intern/cycles/device/device_cpu.cpp:422-431 | The planes of row i's target pair are that row's filtered mean and variance. |
| FeaturePrefilter.PrefilterFeatures | intern/cycles/device/device_cpu.cpp:407-440 | After the seven rows, each pass below 16 other than 8/9 holds its feature plane. Passes 8/9 and those from 20 on are untouched. |
| FeaturePrefilter.CopyColor | intern/cycles/device/device_cpu.cpp:444-470 | Step 3 puts each colour mean and variance into passes 16 … passes-1 and changes nothing else. |
| FeaturePrefilter.FillFrame | intern/cycles/device/device_cpu.cpp:326-471 | The three steps leave every pass of the frame holding its final plane, whatever the frame held before. No other frame changes. |
| FeaturePrefilter.DenoiseFillBuffer | intern/cycles/device/device_cpu.cpp:316-474 | The new buffer has pass-count × frames planes, and every plane of every frame is its final plane. |
| FeaturePrefilter.FinalPlaneDescribesLayout | intern/cycles/device/device_cpu.cpp:412-469 | Every pass of the filled buffer estimates exactly the feature mean or variance that the documented layout assigns to it. |
| FeaturePrefilter.ShadowPlanesDescribeLayout | intern/cycles/device/device_cpu.cpp:393-398 | The combined halves in passes 8/9 are the shadow mean and the shadow variance. |
| FeaturePrefilter.FeaturePlaneDescribesLayout | intern/cycles/device/device_cpu.cpp:412-431 | Each feature pass below 16 holds what the layout says. |
| FeaturePrefilter.ColorPlaneDescribesLayout | intern/cycles/device/device_cpu.cpp:444-469 | Each colour pass holds what the layout says. |
| FeaturePrefilter.FinalPlaneFromOwnFrame | intern/cycles/device/device_cpu.cpp:326-331 | Frames do not mix: every final plane of frame fr is computed from frame fr's render data only. |
| Regression.StorageSlotBijection | intern/cycles/device/device_cpu.cpp:481-494 | The slot y*filter_area.z + x is a bijection between the filter-area pixels and [0, storage_num). |
| Regression.BlocksInBounds | intern/cycles/device/device_cpu.cpp:487-490 | Slot k's XtWX block of (features+1)² floats, and its XtWY block of features+1 entries, lie inside the allocations. |
| Regression.SlotContributionsCover | intern/cycles/device/device_cpu.cpp:506-516 | After count offsets, a pixel's normal equations hold one contribution for each of the first count offsets whose neighbour of the pixel lies in the working rectangle together with the pixel, and for no other offset. They appear in loop order, each once, and each records the rectangle clipped for its offset. |
| Regression.GramianOffsets | intern/cycles/device/device_cpu.cpp:506-516 | After the whole loop, offset o has contributed to filter-area pixel p exactly when o is in the half window and both p and p + o lie inside rect. |
| Regression.RunChannelsAreColor | intern/cycles/device/device_cpu.cpp:502-512 | Read at the fill buffer's stride, channel c of the weight and variance planes (a step of 2*pass_stride) is colour c's mean and variance in frame 0. |
| Regression.LocalFilterArea | intern/cycles/device/device_cpu.cpp:506 | The filter area moved into working-rectangle coordinates keeps its size and holds exactly the shifted pixels. |
| Regression.ConstructTransforms | intern/cycles/device/device_cpu.cpp:492-496 | Every storage slot k gets the transform of the k-th filter-area pixel in row-major order. |
| Regression.SlotInOrder | intern/cycles/device/device_cpu.cpp:492-496 | The slot of local pixel (x, y) is that pixel's position in the sweep of the filter area. |
| Regression.AccumulateGramians | intern/cycles/device/device_cpu.cpp:506-517 | Starting from zeroed arrays, the XtWX and XtWY slots of each pixel of local_filter_rect end up holding, in loop order, the contributions of exactly the offsets whose clipped rectangle holds that pixel. |
| Regression.LocalFilterPixels | intern/cycles/device/device_cpu.cpp:506 | Pixel k of local_filter_rect is pixel k of the filter area moved by the corner of the working rectangle. |
| Regression.Finalize | intern/cycles/device/device_cpu.cpp:521-525 | Every filter-area pixel is finalised once, in row-major order, from its own slot of the storage, XtWX and XtWY. |
| Regression.DenoiseRun | intern/cycles/device/device_cpu.cpp:476-531 | Each filter-area pixel is finalised exactly once, in row-major order, with its own transform. Its normal equations hold, in loop order, the contribution of each half-window offset whose clipped rectangle holds the pixel, read from the colour passes at the fill buffer's stride. |
| TileRender.DeviceTask.UpdateProgress | intern/cycles/device/device_cpu.cpp:572 | A progress report records the tile's current sample and the pixel count. |
| TileRender.DeviceTask.ReleaseTile | intern/cycles/device/device_cpu.cpp:630 | A release records the tile and its sample at that moment. |
| TileRender.RenderTile.constructor | intern/cycles/device/device_cpu.cpp:541-543 | An acquired tile carries its parameters and the sample that acquire_tile gave it. |
| TileRender.Columns | intern/cycles/device/device_cpu.cpp:668 | The shader sweep's columns are exactly x0 … x0+width-1, in increasing order, so each of them once, and none when the width is not positive. |
| TileRender.SweepColumns | intern/cycles/device/device_cpu.cpp:668 | The column loop visits exactly Columns. |
| TileRender.SweepPixels | intern/cycles/device/device_cpu.cpp:560-565 | The nested y/x loops visit exactly the row-major sweep of the area, and nothing for a non-positive extent. |
| TileRender.FirstCancel | intern/cycles/device/device_cpu.cpp:555-558 | The first of n cancel checks that answered true, or n: no check before it answered true, and it did if it is below n. |
| TileRender.Rendered | intern/cycles/device/device_cpu.cpp:551-558 | With need_finish_queue every sample is rendered. Without it, exactly the samples before the first observed cancel are rendered. |
| TileRender.SampleEventsAt | intern/cycles/device/device_cpu.cpp:551-573 | Rendered sample start+i is traced over the tile's pixels once. It is then reported once, with tile.sample = start+i+1 and w*h pixel samples. |
| TileRender.RenderSamples | intern/cycles/device/device_cpu.cpp:551-573 | The loop renders the prefix [start, start+k) with k as Rendered says. It leaves tile.sample at start+k, or unchanged when nothing was rendered. The log grows by exactly those samples' traces and reports. |
| TileRender.OverscanArea | intern/cycles/device/device_cpu.cpp:584-586 | The overscan filter area holds exactly the pixels at least the overscan away from every edge of the tile. |
| TileRender.OverscanAreaInsideRect | intern/cycles/device/device_cpu.cpp:584-586 | With 0 ≤ o and 2o ≤ w, h, the overscan filter area lies inside the tile rectangle. It is exactly the tile pixels at least o from every edge. |
| TileRender.DenoiseRect | intern/cycles/device/device_cpu.cpp:614-619 | The working rectangle stays inside the neighbourhood extent tile_x[0] … tile_x[3] (likewise y). It stays within the tile grown by hw, and by hw+1 on the far sides. |
| TileRender.DenoiseRectIsIntersection | intern/cycles/device/device_cpu.cpp:614-619 | A pixel is in the working rectangle if and only if it is in both the neighbourhood and the grown tile. |
| TileRender.DenoiseRectContainsTile | intern/cycles/device/device_cpu.cpp:614-619 | When the neighbourhood surrounds the tile and hw ≥ 0, the working rectangle contains every tile pixel. |
| TileRender.TileEvents | intern/cycles/device/device_cpu.cpp:551-630 | The log of one acquired tile is never empty and ends with that tile's release. |
| TileRender.RenderTileOnce | intern/cycles/device/device_cpu.cpp:544-635 | One loop turn logs the tile's events. A path-trace tile logs its samples, the overscan denoise when overscan is non-zero and no cancel was seen, then the release. A denoise tile logs its denoise over the working rectangle, then a report and a release at start+num. The turn ends the loop exactly when the pool is cancelled and the queue need not be drained. |
| TileRender.Turns | intern/cycles/device/device_cpu.cpp:632-635 | The loop takes every turn when no turn stops it. Otherwise it leaves right after the first turn that stops. |
| TileRender.ThreadRender | intern/cycles/device/device_cpu.cpp:533-639 | Nothing is logged when the pool is already cancelled and the queue need not be drained. Otherwise the log is that of the tile loop. |
| TileRender.TileLoop | intern/cycles/device/device_cpu.cpp:543-636 | The acquire/render/release loop appends each processed tile's log in order and stops after the first turn that says so. |
| TileRender.TileReleasedOnce | intern/cycles/device/device_cpu.cpp:630 | Every tile the loop processes is released exactly once, and the release is its last event. |
| TileRender.ThreadReleasesProcessed | intern/cycles/device/device_cpu.cpp:543-636 | The releases of a thread are the acquired tiles, in acquisition order, up to the last one processed. None is released twice and none is skipped. |
| TileRender.DrainProcessesAll | intern/cycles/device/device_cpu.cpp:632-635 | With need_finish_queue every acquired tile is processed. |
| TileRender.ProcessedStopsAtCancel | intern/cycles/device/device_cpu.cpp:632-635 | Without draining, the loop processes tiles up to and including the first whose release found the pool cancelled, and no further. |
| TileRender.ShaderRoundsAt | intern/cycles/device/device_cpu.cpp:667-684 | In an uncancelled run, sample s is shaded over all columns at position 2s and reported at 2s+1. |
| TileRender.ShaderEvents | intern/cycles/device/device_cpu.cpp:665-689 | With k the first cancelled sample, samples 0 … k-1 are each shaded over all columns and then reported. Sample k, if it exists, is shaded last and not reported. Nothing else is logged. |
| TileRender.ThreadShader | intern/cycles/device/device_cpu.cpp:660-689 | Samples up to the first cancelled check are shaded, the cancelled one included. Progress is reported for each sample before it. |
| TileRender.ThreadFilmConvert | intern/cycles/device/device_cpu.cpp:641-658 | One conversion over the DeviceTask's area in row-major order, with the half-float kernel exactly when a half buffer is given, scaled by 1/(sample+1). |
| TileRender.ThreadRun | intern/cycles/device/device_cpu.cpp:273-281 | A render task gets the render loop's log, a film-convert task the conversion and a shader task the shader loop's log. |
| Capabilities.SupportedNamesExact | intern/cycles/device/device_cpu.cpp:780-784 | A name is listed if and only if its probe answers true. |
| Capabilities.SupportedNamesAreWords | intern/cycles/device/device_cpu.cpp:780-784 | Every listed name is non-empty and has no space. |
| Capabilities.WordsJoin | intern/cycles/device/device_cpu.cpp:779-787 | Splitting a single-space join of words at its spaces gives the words back. |
| Capabilities.ProbeStringJoinsNames | intern/cycles/device/device_cpu.cpp:779-784 | The appended string is the supported names joined by single spaces. It has one trailing space unless AVX2 came last, and it is empty when no probe answers true. |
| Capabilities.JoinNonEmptyWhenNamed | intern/cycles/device/device_cpu.cpp:779-784 | The appended string is empty if and only if no name is supported. |
| Capabilities.NoFeatureLeavesEmptyString | intern/cycles/device/device_cpu.cpp:785 | With no probe true, the string is empty and the index size()-1 is -1 (past the end once wrapped). |
| Capabilities.TrimmedIsJoin | intern/cycles/device/device_cpu.cpp:785-786 | Cutting one trailing space from a non-empty appended string leaves exactly the joined names. |
| Capabilities.AppendProbes | intern/cycles/device/device_cpu.cpp:779-784 | The five conditional appends build the probe string. |
| Capabilities.DeviceCpuCapabilitiesAsWritten | intern/cycles/device/device_cpu.cpp:777-788 | As written, the result is undefined exactly when no instruction set is supported. Otherwise it is the joined names. |
| Capabilities.DeviceCpuCapabilities | intern/cycles/device/device_cpu.cpp:777-788 | The result is the supported names in fixed order, single-space separated, with no leading or trailing space. Splitting it gives the names back. Each name is present if and only if its probe is true. It is empty exactly when none is. |
| DeviceMemory.Stats.MemAlloc | intern/cycles/device/device_cpu.cpp:200 | The statistics are charged the size. |
| DeviceMemory.Stats.MemFree | intern/cycles/device/device_cpu.cpp:224 | The statistics are credited the size. |
| DeviceMemory.MemAlloc | intern/cycles/device/device_cpu.cpp:196-201 | The device pointer becomes the host pointer and the device size the memory size. The statistics are charged that size. |
| DeviceMemory.MemFree | intern/cycles/device/device_cpu.cpp:220-227 | Memory the device holds is released: pointer and size are cleared and the statistics credited the recorded size. Memory it does not hold is left alone, and nothing is credited. |
| DeviceMemory.TexAlloc | intern/cycles/device/device_cpu.cpp:234-253 | The texture is recorded and charged exactly as mem_alloc does. |
| DeviceMemory.TexFree | intern/cycles/device/device_cpu.cpp:255-262 | The texture is released exactly as mem_free releases memory. |
| DeviceMemory.AllocFreeRoundTrip | intern/cycles/device/device_cpu.cpp:196-227 | For a non-null host pointer, alloc then free leaves the statistics where they were and the memory released. A second free changes nothing. |
| DeviceMemory.NullAllocationStaysCharged | intern/cycles/device/device_cpu.cpp:196-227 | For a null host pointer, mem_alloc charges the statistics but mem_free never credits them, since its test is on the pointer. |

## Left out

- Floating-point kernels (path tracing, shading, film conversion, all the
  filter kernels, construct_transform, construct_gramian, finalize): their
  bodies are not part of this model.
  - Each call is modelled by what it writes and reads: a labelled plane in
    the filter buffer, a contribution record in XtWX/XtWY, or an event in
    the DeviceTask log.
  - No numeric result is modelled, including the NLM tuning constants a
    and k_2.
- `sample_scale = 1/(sample+1)` is a float. The model keeps the
  denominator `sample + 1`.
- Within the prefilter, each per-pixel kernel sweep over the rectangle is
  modelled as one write of a whole plane. The order of the pixels within a
  prefilter sweep is not modelled. It is modelled for the path-trace and
  film-convert sweeps, the shader columns and the denoise_run storage loops.
- `FeaturePrefilter.DivideShadow`: the call passes only unfilteredA and the
  variance planes. The write of the second half, unfilteredB (pass 5),
  follows the kernel's documented role; the kernel itself is not part of
  this model.
- Concurrency:
  - TaskPool push, wait, cancel and stop are not modelled.
  - Cancellation (`task.get_cancel()` and `task_pool.canceled()`) is modelled
    as oracle sequences of answers, one per check. The two sources of a
    combined check are one answer.
- `task_add`, `get_split_task_count` and `DeviceTask::split` /
  `get_subtask_count` are not part of this model. Only the SHADER minimum
  chunk of 256 appears in this file, and the splitting itself lives
  elsewhere.
- `task.acquire_tile`, `task.get_neighbor_tiles` and `release_tile`'s
  internals are not part of this model.
  - The acquired tiles, their initial `sample` and the neighbour extents are
    inputs.
  - `update_progress` and `release_tile` are recorded as log events.
- Per-thread setup is not modelled: kernel-globals init and free, OSL
  thread init and free, `system_enable_ftz`, the debug-only
  `WITH_CYCLES_DEBUG_FILTER` and `WITH_CYCLES_DEBUG_FPE` blocks, and
  `new`/`delete`/`memset` of scratch arrays. The arrays themselves are
  modelled as freshly allocated, zeroed arrays.
- VLOG output is modelled only as the list of notices the latch guards.
  `device_cpu_info` and `system_cpu_brand_string` are not part of this
  model.
- Memory operations left out:
  - `mem_copy_to` and `mem_copy_from` are no-ops in the source.
  - `mem_zero`'s memset is not modelled.
  - `const_copy_to` and `kernel_tex_copy` hand data to kernel globals that
    are not part of this model.
  - `Stats` is an abstract running total.
- `align_up` is defined outside this file. It is modelled as rounding up to
  the next multiple of 4, which the power-of-two mask computes.
- `FeaturePrefilter.NonLocalMeans`: the sum and total planes are labels for
  the whole window. Each offset's clipped rectangle is recorded only on the
  weights plane it leaves behind. Which pixels of `out` an offset's update
  reaches is not modelled.
- `Regression.AccumulateGramians`: the body of construct_gramian is not part
  of this model. The model takes it to add an offset's contribution to the
  slot of each pixel of local_filter_rect that lies in the offset's
  local_rect, and to no other slot.
- `Regression.DenoiseRun`: requires a filter area of non-negative width and
  height.
  - The source would allocate `new FilterStorage[storage_num]` with a
    negative count otherwise.
  - Negative tile extents are not given a meaning.
- Integer widths: C `int` overflow of the index arithmetic (for example
  `passes*pass_stride` on very large tiles) is not modelled. Integers are
  unbounded.

## Findings

| source | as written | input that shows it | evidently intended | confidence | as-written member | corrected member |
|---|---|---|---|---|---|---|
| intern/cycles/device/device_cpu.cpp:785 | `capabilities[capabilities.size() - 1]` is read even when the string is empty | a CPU for which all five probes answer false: the string stays "" and the index is size_t(-1) | test for emptiness first and return "" | not executed; high | Capabilities.DeviceCpuCapabilitiesAsWritten | Capabilities.DeviceCpuCapabilities |
| intern/cycles/device/device_cpu.cpp:485 | denoise_run uses `pass_stride = w*h`, while denoise_fill_buffer lays passes out with `w*h*frames` (line 320) | frames = 2: the weight pointer `16*pass_stride` lands on pass 8 of frame 0 (the shadow feature), and the variance pointer on the shadow of frame 1, instead of colour R | the fill buffer's stride `w*h*frames`, which makes passes 16/17 colour R in frame 0 | not executed; low (multi-frame buffers may not reach this path in practice) | FilterLayout.RunReadsShadowWithTwoFrames | Regression.DenoiseRun |
