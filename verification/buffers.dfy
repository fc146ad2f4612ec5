/**
 * Transfer buffers: how long __do_alloc maps them, how it fills them, which
 * slice each repetition copies from, and how long munmap releases them
 * (shmem.c and cma.c share these rules).
 *
 * A hot buffer holds one datasize-byte region reused by every repetition; a
 * cold buffer holds reps consecutive datasize-byte slices, one per repetition.
 */
module Buffers {
  import opened Options
  import opened Mem

  /** SIZE_MAX + 1 on LP64: sizes are size_t, and wrap-around is excluded rather than modelled. */
  const SizeLimit: nat := 0x1_0000_0000_0000_0000

  /** datasize * reps fits in a size_t. */
  predicate NoSizeWrap(cfg: Config) {
    cfg.datasize * cfg.reps < SizeLimit
  }

  /** buffer_size in __do_alloc: datasize, multiplied by reps when the buffer is cold. */
  function BufferLength(cfg: Config): nat {
    var size := cfg.datasize;
    if cfg.temp == Cold then size * cfg.reps else size
  }

  /**
   * The length every munmap of a transfer buffer passes,
   * (temp == COLD) ? datasize * reps : datasize: always the length
   * __do_alloc mapped for the same settings.
   */
  function ReleaseLength(cfg: Config): (n: nat)
    ensures n == BufferLength(cfg)
  {
    if cfg.temp == Cold then cfg.datasize * cfg.reps else cfg.datasize
  }

  /** Where repetition `rep` reads: rep * total_size into a cold buffer, the start of a hot one. */
  function SourceOffset(temp: Temp, rep: nat, totalSize: nat): nat {
    if temp == Cold then rep * totalSize else 0
  }

  lemma {:induction false} MulMonotone(a: nat, b: nat, d: nat)
    requires a <= b
    ensures a * d <= b * d
  {
    if a < b {
      MulMonotone(a, b - 1, d);
      assert (b - 1) * d + d == b * d;
    }
  }

  /**
   * Every repetition's slice lies inside the buffer: for rep < reps the
   * datasize bytes at SourceOffset end at or before BufferLength.
   */
  lemma SliceInBuffer(cfg: Config, rep: nat)
    requires rep < cfg.reps
    ensures SourceOffset(cfg.temp, rep, cfg.datasize) + cfg.datasize <= BufferLength(cfg)
  {
    if cfg.temp == Cold {
      MulMonotone(rep + 1, cfg.reps, cfg.datasize);
      assert (rep + 1) * cfg.datasize == rep * cfg.datasize + cfg.datasize;
      assert cfg.reps * cfg.datasize == cfg.datasize * cfg.reps;
    }
  }

  /** Cold slices of two different repetitions do not overlap. */
  lemma ColdSlicesDisjoint(datasize: nat, rep1: nat, rep2: nat)
    requires rep1 != rep2
    ensures var o1, o2 := SourceOffset(Cold, rep1, datasize), SourceOffset(Cold, rep2, datasize);
      o1 + datasize <= o2 || o2 + datasize <= o1
  {
    if rep1 < rep2 {
      MulMonotone(rep1 + 1, rep2, datasize);
      assert (rep1 + 1) * datasize == rep1 * datasize + datasize;
    } else {
      MulMonotone(rep2 + 1, rep1, datasize);
      assert (rep2 + 1) * datasize == rep2 * datasize + datasize;
    }
  }

  /** In a hot buffer every repetition reads the same region, the first datasize bytes. */
  lemma HotSlicesCoincide(cfg: Config, rep: nat)
    requires cfg.temp == Hot
    ensures SourceOffset(cfg.temp, rep, cfg.datasize) == 0
    ensures SourceOffset(cfg.temp, rep, cfg.datasize) + cfg.datasize == BufferLength(cfg)
  {
  }

  // ---------------------------------------------------------------------------
  // mmap and __do_alloc
  // ---------------------------------------------------------------------------

  /** A pointer as C compares it: NULL, MAP_FAILED ((void *) -1), or the start of a mapping. */
  datatype Pointer = Null | MapFailedPtr | Mapping

  /**
   * mmap(NULL, length, ..., MAP_PRIVATE | MAP_ANONYMOUS, -1, 0): MAP_FAILED
   * when the length is 0 (EINVAL) or the system refuses (osOk false), a new
   * zero-filled mapping otherwise. It never returns NULL for a NULL hint.
   */
  function Mmap(length: nat, osOk: bool): Pointer {
    if length == 0 || !osOk then MapFailedPtr else Mapping
  }

  /**
   * __do_alloc of shmem.c:59-78: map BufferLength bytes, return NULL (here
   * null) when mmap returned MAP_FAILED, else set every byte to 1.
   */
  method DoAlloc(cfg: Config, osOk: bool) returns (buffer: array?<Byte>)
    requires NoSizeWrap(cfg)
    ensures buffer == null <==> Mmap(BufferLength(cfg), osOk) == MapFailedPtr
    ensures buffer != null ==> fresh(buffer) && buffer.Length == BufferLength(cfg)
    ensures buffer != null ==> forall i :: 0 <= i < buffer.Length ==> buffer[i] == 1
  {
    var size := cfg.datasize;
    if cfg.temp == Cold {
      size := size * cfg.reps;
    }
    if Mmap(size, osOk) == MapFailedPtr {
      return null;
    }
    buffer := new Byte[size];
    Memset(buffer, 1, size);
  }

  /** A zero datasize always fails to allocate, hot or cold: mmap refuses a zero length. */
  lemma ZeroDatasizeFailsToAllocate(cfg: Config, osOk: bool)
    requires cfg.datasize == 0
    ensures Mmap(BufferLength(cfg), osOk) == MapFailedPtr
  {
  }
}
