/** Device-memory bookkeeping of the CPU device: the device shares the host
    allocation, so allocating only records the pointer and size and charges
    the statistics, and freeing undoes that once. */
module DeviceMemory {

  /** The device's memory statistics, as a running total of bytes in use
      (the Stats class itself is not part of this model). */
  class Stats {
    var memUsed: int

    constructor ()
      ensures memUsed == 0
    {
      memUsed := 0;
    }

    method MemAlloc(size: int)
      modifies this
      ensures memUsed == old(memUsed) + size
    {
      memUsed := memUsed + size;
    }

    method MemFree(size: int)
      modifies this
      ensures memUsed == old(memUsed) - size
    {
      memUsed := memUsed - size;
    }
  }

  /** A device_memory: the host data and its size are fixed; the device
      pointer and device size are what the device records (0 when none). */
  class Memory {
    const dataPointer: int
    const memorySize: nat
    var devicePointer: int
    var deviceSize: int

    constructor (data: int, size: nat)
      ensures dataPointer == data && memorySize == size
      ensures devicePointer == 0 && deviceSize == 0
    {
      dataPointer, memorySize := data, size;
      devicePointer, deviceSize := 0, 0;
    }

    /** The device holds this memory. */
    predicate Allocated()
      reads this
    {
      devicePointer != 0
    }
  }

  /** mem_alloc: the device pointer is the host pointer, the device size the
      memory size, and the statistics are charged that size. */
  method MemAlloc(mem: Memory, stats: Stats)
    modifies mem, stats
    ensures mem.devicePointer == mem.dataPointer && mem.deviceSize == mem.memorySize
    ensures stats.memUsed == old(stats.memUsed) + mem.memorySize
  {
    mem.devicePointer := mem.dataPointer;
    mem.deviceSize := mem.memorySize;
    stats.MemAlloc(mem.deviceSize);
  }

  /** mem_free: only memory the device holds is released; the statistics get
      the recorded size back and pointer and size are cleared. */
  method MemFree(mem: Memory, stats: Stats)
    modifies mem, stats
    ensures old(mem.Allocated()) ==>
      mem.devicePointer == 0 && mem.deviceSize == 0 && stats.memUsed == old(stats.memUsed) - old(mem.deviceSize)
    ensures !old(mem.Allocated()) ==>
      mem.devicePointer == old(mem.devicePointer) && mem.deviceSize == old(mem.deviceSize) &&
      stats.memUsed == old(stats.memUsed)
  {
    if mem.devicePointer != 0 {
      mem.devicePointer := 0;
      stats.MemFree(mem.deviceSize);
      mem.deviceSize := 0;
    }
  }

  /** tex_alloc: the texture is handed to the kernel globals (not part of
      this model), then recorded and charged exactly as mem_alloc does. */
  method TexAlloc(name: string, mem: Memory, stats: Stats)
    modifies mem, stats
    ensures mem.devicePointer == mem.dataPointer && mem.deviceSize == mem.memorySize
    ensures stats.memUsed == old(stats.memUsed) + mem.memorySize
  {
    mem.devicePointer := mem.dataPointer;
    mem.deviceSize := mem.memorySize;
    stats.MemAlloc(mem.deviceSize);
  }

  /** tex_free: the same release as mem_free. */
  method TexFree(mem: Memory, stats: Stats)
    modifies mem, stats
    ensures old(mem.Allocated()) ==>
      mem.devicePointer == 0 && mem.deviceSize == 0 && stats.memUsed == old(stats.memUsed) - old(mem.deviceSize)
    ensures !old(mem.Allocated()) ==>
      mem.devicePointer == old(mem.devicePointer) && mem.deviceSize == old(mem.deviceSize) &&
      stats.memUsed == old(stats.memUsed)
  {
    if mem.devicePointer != 0 {
      mem.devicePointer := 0;
      stats.MemFree(mem.deviceSize);
      mem.deviceSize := 0;
    }
  }

  /** Allocating host memory with a non-null pointer and then freeing it
      leaves the statistics where they were and the memory released; a
      second free changes nothing. */
  method AllocFreeRoundTrip(mem: Memory, stats: Stats)
    requires mem.dataPointer != 0
    modifies mem, stats
    ensures stats.memUsed == old(stats.memUsed)
    ensures mem.devicePointer == 0 && mem.deviceSize == 0
  {
    MemAlloc(mem, stats);
    MemFree(mem, stats);
    MemFree(mem, stats);
  }

  /** Host memory with a null pointer is charged by mem_alloc but never
      released by mem_free, whose test is on the pointer. */
  method NullAllocationStaysCharged(mem: Memory, stats: Stats)
    requires mem.dataPointer == 0
    modifies mem, stats
    ensures stats.memUsed == old(stats.memUsed) + mem.memorySize
    ensures !mem.Allocated() && mem.deviceSize == mem.memorySize
  {
    MemAlloc(mem, stats);
    MemFree(mem, stats);
  }
}
