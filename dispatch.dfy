/** Kernel dispatch by instruction-set tier: each KernelFunctions table binds,
    once, the implementation of the highest tier that was both compiled in
    and is supported by the running CPU, and a process-wide latch makes the
    choice be announced at most once. */
module KernelDispatch {

  /** Instruction-set tiers, lowest first. */
  datatype Tier = Default | Sse2 | Sse3 | Sse41 | Avx | Avx2

  function Rank(t: Tier): nat {
    match t
    case Default => 0
    case Sse2 => 1
    case Sse3 => 2
    case Sse41 => 3
    case Avx => 4
    case Avx2 => 5
  }

  /** One flag per optimised tier. Used both for the kernels compiled in
      (WITH_CYCLES_OPTIMIZED_KERNEL_*) and for the CPU's answers to the
      system_cpu_support_* probes. */
  datatype IsaFlags = IsaFlags(sse2: bool, sse3: bool, sse41: bool, avx: bool, avx2: bool)

  /** The flag of tier t; the default kernel has no flag. */
  predicate Has(f: IsaFlags, t: Tier) {
    match t
    case Default => false
    case Sse2 => f.sse2
    case Sse3 => f.sse3
    case Sse41 => f.sse41
    case Avx => f.avx
    case Avx2 => f.avx2
  }

  /** Tier t can be used: it was compiled in and the CPU supports it. */
  predicate Available(compiled: IsaFlags, cpu: IsaFlags, t: Tier) {
    Has(compiled, t) && Has(cpu, t)
  }

  /** The tier the constructor's chain of #ifdef'd tests picks, highest first. */
  function SelectTier(compiled: IsaFlags, cpu: IsaFlags): (t: Tier)
    ensures t == Default || Available(compiled, cpu, t)
    ensures forall u :: Rank(u) > Rank(t) ==> !Available(compiled, cpu, u)
    ensures t == Default <==> forall u :: !Available(compiled, cpu, u)
  {
    if compiled.avx2 && cpu.avx2 then Avx2
    else if compiled.avx && cpu.avx then Avx
    else if compiled.sse41 && cpu.sse41 then Sse41
    else if compiled.sse3 && cpu.sse3 then Sse3
    else if compiled.sse2 && cpu.sse2 then Sse2
    else Default
  }

  /** The architecture_name the constructor reports. */
  function TierName(t: Tier): string {
    match t
    case Default => "default"
    case Sse2 => "SSE2"
    case Sse3 => "SSE3"
    case Sse41 => "SSE4.1"
    case Avx => "AVX"
    case Avx2 => "AVX2"
  }

  /** The notice logged when a table is built. */
  function Notice(t: Tier): string {
    "Will be using " + TierName(t) + " kernels."
  }

  /** Whether control reaches the `if(!logged_architecture)` block.
      With SSE2 compiled in, the SSE2 test has no `else` and the block always
      runs. With SSE2 compiled out, the last compiled tier's dangling `else`
      takes the block as its branch, so it runs only when no compiled tier
      was chosen (and unconditionally when no tier is compiled at all). */
  predicate NoticeReached(compiled: IsaFlags, cpu: IsaFlags)
    ensures NoticeReached(compiled, cpu) <==> LogBlockReached(compiled, cpu, [Avx2, Avx, Sse41, Sse3, Sse2])
  {
    ChainUnrolled(compiled, cpu);
    compiled.sse2 || SelectTier(compiled, cpu) == Default
  }

  /** The constructor's chain written out test by test, highest tier first:
      whether control reaches the statement written after it. A tier
      compiled out vanishes with its #ifdef. Every test but SSE2's ends in
      `else`, so when the last test compiled in is not SSE2's, that statement
      becomes the branch of the dangling `else`. A test whose CPU probe
      succeeds takes its branch, skipping everything in its `else`. */
  predicate LogBlockReached(compiled: IsaFlags, cpu: IsaFlags, tests: seq<Tier>)
    decreases |tests|
  {
    if tests == [] then true
    else if !Has(compiled, tests[0]) then LogBlockReached(compiled, cpu, tests[1..])
    else if tests[0] == Sse2 then true
    else if Has(cpu, tests[0]) then ChainClosed(compiled, tests[1..])
    else LogBlockReached(compiled, cpu, tests[1..])
  }

  /** The tests left end in one without an `else` (SSE2's, compiled in), so
      the statement after the chain is not part of any branch. */
  predicate ChainClosed(compiled: IsaFlags, tests: seq<Tier>)
    decreases |tests|
  {
    if tests == [] then false
    else if Has(compiled, tests[0]) && tests[0] == Sse2 then true
    else ChainClosed(compiled, tests[1..])
  }

  /** The written-out chain, test by test: the log block is reached exactly
      when SSE2 is compiled in or no compiled tier's probe succeeds. */
  lemma ChainUnrolled(compiled: IsaFlags, cpu: IsaFlags)
    ensures LogBlockReached(compiled, cpu, [Avx2, Avx, Sse41, Sse3, Sse2]) <==>
      compiled.sse2 || SelectTier(compiled, cpu) == Default
  {
    var sse2 := [Sse2];
    var sse3 := [Sse3] + sse2;
    var sse41 := [Sse41] + sse3;
    var avx := [Avx] + sse41;
    var avx2 := [Avx2] + avx;
    assert sse2[1..] == [] && sse3[1..] == sse2 && sse41[1..] == sse3 && avx[1..] == sse41 && avx2[1..] == avx;
    assert ChainClosed(compiled, sse2) == compiled.sse2;
    assert ChainClosed(compiled, sse3) == compiled.sse2;
    assert ChainClosed(compiled, sse41) == compiled.sse2;
    assert ChainClosed(compiled, avx) == compiled.sse2;
    assert LogBlockReached(compiled, cpu, sse2);
    assert LogBlockReached(compiled, cpu, sse3) == if compiled.sse3 && cpu.sse3 then compiled.sse2 else true;
    assert LogBlockReached(compiled, cpu, sse41) ==
      if compiled.sse41 && cpu.sse41 then compiled.sse2 else LogBlockReached(compiled, cpu, sse3);
    assert LogBlockReached(compiled, cpu, avx) ==
      if compiled.avx && cpu.avx then compiled.sse2 else LogBlockReached(compiled, cpu, sse41);
    assert LogBlockReached(compiled, cpu, avx2) ==
      if compiled.avx2 && cpu.avx2 then compiled.sse2 else LogBlockReached(compiled, cpu, avx);
    assert avx2 == [Avx2, Avx, Sse41, Sse3, Sse2];
  }

  /** One implementation per tier. */
  datatype KernelSet<F> = KernelSet(default: F, sse2: F, sse3: F, sse41: F, avx: F, avx2: F)

  function Pick<F>(ks: KernelSet<F>, t: Tier): F {
    match t
    case Default => ks.default
    case Sse2 => ks.sse2
    case Sse3 => ks.sse3
    case Sse41 => ks.sse41
    case Avx => ks.avx
    case Avx2 => ks.avx2
  }

  /** The process-wide `logged_architecture` latch and the log lines it
      guards (VLOG output is modelled only as the list of notices). */
  class ArchitectureLog {
    var logged: bool
    var notices: seq<string>

    constructor ()
      ensures !logged && notices == []
    {
      logged := false;
      notices := [];
    }
  }

  /** A kernel table: its bound kernel is fixed at construction. */
  class KernelFunctions<F> {
    const kernel: F
    /** The implementations the table was built from and the tier chosen. */
    ghost const kernels: KernelSet<F>
    ghost const architecture: Tier

    /** The bound kernel is the chosen tier's implementation. */
    ghost predicate Valid() {
      kernel == Pick(kernels, architecture)
    }

    constructor (kernels: KernelSet<F>, compiled: IsaFlags, cpu: IsaFlags, log: ArchitectureLog)
      modifies log
      ensures Valid() && this.kernels == kernels && this.architecture == SelectTier(compiled, cpu)
      ensures kernel == Pick(kernels, SelectTier(compiled, cpu))
      ensures log.logged == (old(log.logged) || NoticeReached(compiled, cpu))
      ensures log.notices == old(log.notices) +
        (if !old(log.logged) && NoticeReached(compiled, cpu) then [Notice(SelectTier(compiled, cpu))] else [])
    {
      var architecture := Default;
      var chosen := kernels.default;
      var tierTaken := false;
      if compiled.avx2 && cpu.avx2 {
        architecture, chosen, tierTaken := Avx2, kernels.avx2, true;
      } else if compiled.avx && cpu.avx {
        architecture, chosen, tierTaken := Avx, kernels.avx, true;
      } else if compiled.sse41 && cpu.sse41 {
        architecture, chosen, tierTaken := Sse41, kernels.sse41, true;
      } else if compiled.sse3 && cpu.sse3 {
        architecture, chosen, tierTaken := Sse3, kernels.sse3, true;
      } else if compiled.sse2 && cpu.sse2 {
        architecture, chosen, tierTaken := Sse2, kernels.sse2, true;
      }
      kernel := chosen;
      this.kernels := kernels;
      this.architecture := architecture;
      // The log block is the final `else` of the chain unless SSE2's test ends it.
      if compiled.sse2 || !tierTaken {
        if !log.logged {
          log.notices := log.notices + [Notice(architecture)];
          log.logged := true;
        }
      }
    }

    /** operator(): the implementation of the tier chosen when the table was
        built, the same on every call. */
    function Call(): (f: F)
      requires Valid()
      ensures f == Pick(kernels, architecture)
    {
      kernel
    }
  }

  /** The CPU device constructor builds one table per kernel (17 of them).
      Every table binds the same tier, and however many are built the notice
      is emitted at most once; it is emitted exactly once when the latch was
      clear and the log block is reachable. */
  method CpuDeviceKernels<F>(kernelSets: seq<KernelSet<F>>, compiled: IsaFlags, cpu: IsaFlags, log: ArchitectureLog)
    returns (tables: seq<KernelFunctions<F>>)
    modifies log
    ensures |tables| == |kernelSets|
    ensures forall i :: 0 <= i < |tables| ==> tables[i].kernel == Pick(kernelSets[i], SelectTier(compiled, cpu))
    ensures old(log.logged) ==> log.notices == old(log.notices)
    ensures !old(log.logged) && NoticeReached(compiled, cpu) && |kernelSets| > 0 ==>
      log.logged && log.notices == old(log.notices) + [Notice(SelectTier(compiled, cpu))]
    ensures !NoticeReached(compiled, cpu) ==> log.notices == old(log.notices) && log.logged == old(log.logged)
  {
    tables := [];
    var i := 0;
    while i < |kernelSets|
      invariant 0 <= i <= |kernelSets| && |tables| == i
      invariant forall j :: 0 <= j < i ==> tables[j].kernel == Pick(kernelSets[j], SelectTier(compiled, cpu))
      invariant old(log.logged) ==> log.notices == old(log.notices) && log.logged
      invariant !old(log.logged) && NoticeReached(compiled, cpu) ==>
        if i == 0 then log.notices == old(log.notices) && !log.logged
        else log.logged && log.notices == old(log.notices) + [Notice(SelectTier(compiled, cpu))]
      invariant !NoticeReached(compiled, cpu) ==> log.notices == old(log.notices) && log.logged == old(log.logged)
    {
      var table := new KernelFunctions(kernelSets[i], compiled, cpu, log);
      tables := tables + [table];
      i := i + 1;
    }
  }

  /** When SSE2 is compiled in, or no optimised tier is, the first table
      built with the latch clear announces its tier. */
  lemma NoticeReachedWhenChainEnds(compiled: IsaFlags, cpu: IsaFlags)
    requires compiled.sse2 || (!compiled.sse3 && !compiled.sse41 && !compiled.avx && !compiled.avx2)
    ensures NoticeReached(compiled, cpu)
  {
  }

  /** With SSE2 compiled out, a CPU that supports a compiled tier never gets
      the notice: the dangling `else` skips it. */
  lemma NoticeSkippedByDanglingElse(compiled: IsaFlags, cpu: IsaFlags)
    requires !compiled.sse2
    ensures NoticeReached(compiled, cpu) <==> forall u :: !Available(compiled, cpu, u)
  {
  }
}
