/**
 * The process pair benchmark (cma.c): every pair is a forked reader that maps
 * its buffer and pauses, and a forked writer that maps its own buffer, waits
 * for the release flag and pushes its buffer into the reader's address space
 * with process_vm_writev, once per repetition, at the same virtual address.
 *
 * fork, pause, kill, wait and core pinning are not modelled; neither is what
 * process_vm_writev does to the other process. What is modelled is which
 * addresses and lengths each call is given, when the loop stops, and what the
 * round loop does with the shared flag.
 */
module Cma {
  import opened Options
  import opened Mem
  import opened Buffers
  import opened Barrier
  import opened Schedule

  // ---------------------------------------------------------------------------
  // __do_alloc as written in cma.c
  // ---------------------------------------------------------------------------

  /**
   * How cma.c's __do_alloc ends: a filled mapping; NULL; a fault, when mmap
   * returned MAP_FAILED for a non-zero length and memset writes through it;
   * or the MAP_FAILED address itself, when the length was 0 and memset wrote
   * nothing.
   */
  datatype CmaAlloc = Buffer(a: array<Byte>) | NullBuffer | MemsetFault | MapFailedBuffer

  /**
   * __do_alloc of cma.c:56-75 as written: the failure test compares mmap's
   * result with NULL, which mmap never returns, so a failed mapping is never
   * reported and the MAP_FAILED address goes on to memset.
   */
  method DoAllocAsWritten(cfg: Config, osOk: bool) returns (r: CmaAlloc)
    requires NoSizeWrap(cfg)
    ensures !r.NullBuffer?
    ensures r.MemsetFault? <==> Mmap(BufferLength(cfg), osOk) == MapFailedPtr && BufferLength(cfg) > 0
    ensures r.MapFailedBuffer? <==> Mmap(BufferLength(cfg), osOk) == MapFailedPtr && BufferLength(cfg) == 0
    ensures r.Buffer? ==> fresh(r.a) && r.a.Length == BufferLength(cfg)
    ensures r.Buffer? ==> forall i :: 0 <= i < r.a.Length ==> r.a[i] == 1
  {
    var size := cfg.datasize;
    if cfg.temp == Cold {
      size := size * cfg.reps;
    }
    var p := Mmap(size, osOk);
    if p == Null {
      return NullBuffer;
    }
    if p == MapFailedPtr {
      // memset(MAP_FAILED, 1, size)
      if size > 0 {
        return MemsetFault;
      }
      return MapFailedBuffer;
    }
    var a := new Byte[size];
    Memset(a, 1, size);
    r := Buffer(a);
  }

  /**
   * A concrete input the NULL test lets through: datasize 0 makes mmap fail
   * with MAP_FAILED, which is not NULL, while shmem.c's MAP_FAILED test
   * (Buffers.DoAlloc) reports it.
   */
  lemma ZeroDatasizeSlipsPastNullTest()
    ensures var p := Mmap(BufferLength(Config(Intra, Hot, 0, 100)), true);
      p == MapFailedPtr && p != Null
  {
  }

  // ---------------------------------------------------------------------------
  // __compute_bw
  // ---------------------------------------------------------------------------

  /** One iovec: its base as an offset from the start of the buffer, and its length. */
  datatype IoVec = IoVec(base: nat, len: nat)

  /** The local and remote iovec one process_vm_writev call is given. */
  datatype Call = Call(local: IoVec, remote: IoVec)

  /**
   * How __compute_bw ends: with the byte count its bandwidth divides by the
   * elapsed time (total_size * reps), or with EXIT_FAILURE at repetition
   * `rep`, whose call returned -1.
   */
  datatype WriteStatus = Measured(bytes: nat) | ExitFailure(rep: nat)

  /**
   * __compute_bw (cma.c:77-117). `written` holds what process_vm_writev
   * returns on each call: -1 on error, otherwise the number of bytes written,
   * which may be short.
   */
  method ComputeBw(bufferLength: nat, cfg: Config, totalSize: nat, written: seq<int>)
    returns (calls: seq<Call>, status: WriteStatus)
    requires totalSize == cfg.datasize && bufferLength == BufferLength(cfg)
    requires |written| == cfg.reps
    requires forall k :: 0 <= k < |written| ==> written[k] >= -1
    ensures status.Measured? <==> forall k :: 0 <= k < cfg.reps ==> written[k] != -1
    ensures status.Measured? ==> status.bytes == totalSize * cfg.reps && |calls| == cfg.reps
    ensures status.ExitFailure? ==>
      && status.rep < cfg.reps && written[status.rep] == -1
      && (forall k :: 0 <= k < status.rep ==> written[k] != -1)
      && |calls| == status.rep + 1
    ensures forall k :: 0 <= k < |calls| ==>
      && calls[k].local == calls[k].remote
      && calls[k].local == IoVec(SourceOffset(cfg.temp, k, totalSize), cfg.datasize)
      && calls[k].local.base + calls[k].local.len <= bufferLength
  {
    var local := IoVec(0, cfg.datasize);
    var remote := IoVec(0, cfg.datasize);
    calls := [];
    var rep := 0;
    while rep < cfg.reps
      invariant 0 <= rep <= cfg.reps && |calls| == rep
      invariant forall k :: 0 <= k < rep ==> written[k] != -1
      invariant cfg.temp == Hot ==> local == remote == IoVec(0, cfg.datasize)
      invariant local.len == remote.len == cfg.datasize
      invariant forall k :: 0 <= k < rep ==>
        && calls[k].local == calls[k].remote
        && calls[k].local == IoVec(SourceOffset(cfg.temp, k, totalSize), cfg.datasize)
        && calls[k].local.base + calls[k].local.len <= bufferLength
    {
      if cfg.temp == Cold {
        local := local.(base := rep * totalSize);
        remote := remote.(base := rep * totalSize);
      }
      SliceInBuffer(cfg, rep);
      calls := calls + [Call(local, remote)];
      if written[rep] == -1 {
        return calls, ExitFailure(rep);
      }
      rep := rep + 1;
    }
    status := Measured(totalSize * cfg.reps);
  }

  // ---------------------------------------------------------------------------
  // The writer child of __run
  // ---------------------------------------------------------------------------

  /** How a writer child ends. */
  datatype WriterOutcome =
    | Faulted                                            // wrote through MAP_FAILED; never reaches kill
    | StillWaiting                                       // the flag was still 0 after the polls
    | Done(calls: seq<Call>, status: WriteStatus, released: nat)

  /**
   * The writer child of __run (cma.c:139-156): map and fill its buffer with
   * cma.c's own __do_alloc, fill the first datasize bytes once more, wait for
   * the release flag, run __compute_bw, and unmap the buffer with the length
   * it was mapped with. A refused mapping is not noticed: the writer faults in
   * one of the two memsets unless datasize is 0, in which case it runs on with
   * MAP_FAILED as its buffer and zero-length iovecs.
   */
  method RunWriter(page: SyncPage, cfg: Config, polls: nat, osOk: bool, written: seq<int>)
    returns (out: WriterOutcome)
    requires page.Valid() && NoSizeWrap(cfg)
    requires |written| == cfg.reps && forall k :: 0 <= k < |written| ==> written[k] >= -1
    ensures out.Faulted? <==> Mmap(BufferLength(cfg), osOk) == MapFailedPtr && cfg.datasize > 0
    ensures out.StillWaiting? ==> page.Flag() == 0
    ensures out.Done? ==> page.Flag() != 0 && out.released == BufferLength(cfg)
    ensures !out.Faulted? && page.Flag() != 0 ==> out.Done?
    ensures out.Done? ==> forall k :: 0 <= k < |out.calls| ==>
      out.calls[k].local.base + out.calls[k].local.len <= out.released
    ensures out.Done? && Mmap(BufferLength(cfg), osOk) == MapFailedPtr ==>
      forall k :: 0 <= k < |out.calls| ==> out.calls[k].local.len == 0
  {
    var r := DoAllocAsWritten(cfg, osOk);
    if r.MemsetFault? {
      return Faulted;
    }
    if r.MapFailedBuffer? {
      // memset(MAP_FAILED, 1, datasize)
      if cfg.datasize > 0 {
        return Faulted;
      }
    } else {
      if cfg.temp == Cold {
        // a cold mapping exists only when datasize * reps > 0, so reps > 0
        SliceInBuffer(cfg, 0);
      }
      Memset(r.a, 1, cfg.datasize);
    }
    var passed := page.Wait(polls);
    if !passed {
      return StillWaiting;
    }
    var calls, status := ComputeBw(BufferLength(cfg), cfg, cfg.datasize, written);
    out := Done(calls, status, ReleaseLength(cfg));
  }

  // ---------------------------------------------------------------------------
  // The round loop of main
  // ---------------------------------------------------------------------------

  /**
   * One finished round: its index, the pairs started, count, and the byte
   * total credited to the round (count * reps * datasize).
   */
  datatype RoundLog = RoundLog(round: nat, pairs: seq<Pair>, count: nat, bytes: nat)

  function ExpectedRound(cfg: Config, nbcores: nat, round: nat): RoundLog
    requires 1 <= round <= nbcores / 2
  {
    var pairs := RoundSpec(cfg.mode, nbcores, round);
    RoundLog(round, pairs, |pairs|, |pairs| * cfg.reps * cfg.datasize)
  }

  /**
   * The body of one round of main (cma.c:206-226): set the flag to 0, fork a
   * reader and a writer per pair, and set the flag to 1. Reaping the children
   * (cma.c:227) is not modelled.
   */
  method RunRound(page: SyncPage, cfg: Config, nbcores: nat, round: nat) returns (entry: RoundLog)
    requires page.Valid() && 1 <= round <= nbcores / 2
    modifies page.words
    ensures entry == ExpectedRound(cfg, nbcores, round)
    ensures page.Flag() == 1
    ensures forall i :: 0 <= i < page.words.Length && i != FlagSlot ==> page.words[i] == old(page.words[i])
  {
    page.ResetFlag();
    var pairs, count := RoundPairs(cfg.mode, nbcores, round);
    page.Release();
    entry := RoundLog(round, pairs, count, count * cfg.reps * cfg.datasize);
  }

  /**
   * The round loop of main (cma.c:203-230): rounds 1..nbcores/2, where an
   * intra-socket round bumps the round index a second time.
   */
  method RunRounds(page: SyncPage, cfg: Config, nbcores: nat) returns (log: seq<RoundLog>)
    requires page.Valid()
    modifies page.words
    ensures var rs := RoundsRun(cfg.mode, nbcores);
      && |log| == |rs|
      && forall k :: 0 <= k < |rs| ==> 1 <= rs[k] <= nbcores / 2 && log[k] == ExpectedRound(cfg, nbcores, rs[k])
    ensures log != [] ==> page.Flag() == 1
    ensures forall i :: 0 <= i < page.words.Length && i != FlagSlot ==> page.words[i] == old(page.words[i])
  {
    var nbRounds := nbcores / 2;
    var round := 1;
    log := [];
    ghost var rs := RoundsRun(cfg.mode, nbcores);
    while round <= nbRounds
      invariant 1 <= round <= nbRounds + 2
      invariant cfg.mode == Inter ==> round == |log| + 1 && round <= nbRounds + 1
      invariant cfg.mode == Intra ==> round == 2 * |log| + 1
      invariant |log| <= |rs|
      invariant forall k :: 0 <= k < |log| ==> 1 <= rs[k] <= nbRounds && log[k] == ExpectedRound(cfg, nbcores, rs[k])
      invariant log != [] ==> page.Flag() == 1
      invariant forall i :: 0 <= i < page.words.Length && i != FlagSlot ==> page.words[i] == old(page.words[i])
      decreases nbRounds + 2 - round
    {
      assert |log| < |rs| && rs[|log|] == round;
      var entry := RunRound(page, cfg, nbcores, round);
      log := log + [entry];
      if cfg.mode == Intra {
        round := round + 1;
      }
      round := round + 1;
    }
  }
}
