/**
 * The threaded pair benchmark (shmem.c): every pair is a destination thread
 * that maps its buffer and a source thread that, once released, copies from
 * its own buffer into the destination's with memcpy, then adds 1 to the
 * shared completion counter.
 *
 * Thread creation, joining, the mutex and core pinning are not modelled; the
 * steps each thread takes on the buffers and the page are, one after another.
 */
module Shmem {
  import opened Options
  import opened Mem
  import opened Buffers
  import opened Barrier
  import opened Schedule

  /**
   * What __compute_bw ends with: the byte count its bandwidth divides by the
   * elapsed time (total_size * reps), the offset each repetition read from,
   * and the length it passes to munmap; or a fault, when its own buffer could
   * not be mapped and the first memcpy reads through NULL.
   */
  datatype BwOutcome = Measured(bytes: nat, offsets: seq<nat>, released: nat) | NullSourceFault

  /**
   * The repetition loop of __compute_bw (shmem.c:85-99): repetition k copies
   * datasize bytes from the buffer's k-th slice (cold) or from its start (hot)
   * into the start of `remote`. Bytes of `remote` beyond datasize are never
   * written.
   */
  method CopyReps(remote: array<Byte>, buffer: array<Byte>, cfg: Config, totalSize: nat) returns (offsets: seq<nat>)
    requires NoSizeWrap(cfg) && totalSize == cfg.datasize && remote != buffer
    requires remote.Length == BufferLength(cfg) && buffer.Length == BufferLength(cfg)
    requires forall i :: 0 <= i < buffer.Length ==> buffer[i] == 1
    modifies remote
    ensures |offsets| == cfg.reps
    ensures forall k :: 0 <= k < cfg.reps ==>
      offsets[k] == SourceOffset(cfg.temp, k, totalSize) && offsets[k] + cfg.datasize <= BufferLength(cfg)
    ensures cfg.reps > 0 ==> forall i :: 0 <= i < cfg.datasize ==> remote[i] == 1
    ensures forall i :: cfg.datasize <= i < remote.Length ==> remote[i] == old(remote[i])
    ensures cfg.reps == 0 ==> forall i :: 0 <= i < remote.Length ==> remote[i] == old(remote[i])
  {
    offsets := [];
    var rep := 0;
    while rep < cfg.reps
      invariant 0 <= rep <= cfg.reps
      invariant |offsets| == rep
      invariant forall k :: 0 <= k < rep ==>
        offsets[k] == SourceOffset(cfg.temp, k, totalSize) && offsets[k] + cfg.datasize <= BufferLength(cfg)
      invariant rep > 0 ==> forall i :: 0 <= i < cfg.datasize ==> remote[i] == 1
      invariant forall i :: cfg.datasize <= i < remote.Length ==> remote[i] == old(remote[i])
      invariant rep == 0 ==> forall i :: 0 <= i < remote.Length ==> remote[i] == old(remote[i])
    {
      var pointer := 0;
      if cfg.temp == Cold {
        pointer := rep * totalSize;
      }
      SliceInBuffer(cfg, rep);
      Memcpy(remote, buffer, pointer, cfg.datasize);
      offsets := offsets + [pointer];
      rep := rep + 1;
    }
  }

  /**
   * __compute_bw (shmem.c:80-102): map and fill a source buffer, then run the
   * repetition loop into `remote`, the destination's buffer.
   */
  method ComputeBw(remote: array<Byte>, cfg: Config, totalSize: nat, osOk: bool) returns (out: BwOutcome)
    requires NoSizeWrap(cfg) && totalSize == cfg.datasize
    requires remote.Length == BufferLength(cfg)
    modifies remote
    ensures out.NullSourceFault? <==> Mmap(BufferLength(cfg), osOk) == MapFailedPtr && cfg.reps > 0
    ensures out.Measured? ==> out.bytes == totalSize * cfg.reps && out.released == BufferLength(cfg)
    ensures out.Measured? && Mmap(BufferLength(cfg), osOk) == Mapping ==>
      && |out.offsets| == cfg.reps
      && forall k :: 0 <= k < cfg.reps ==>
           out.offsets[k] == SourceOffset(cfg.temp, k, totalSize)
           && out.offsets[k] + cfg.datasize <= BufferLength(cfg)
    ensures out.Measured? && cfg.reps > 0 ==> forall i :: 0 <= i < cfg.datasize ==> remote[i] == 1
    ensures forall i :: cfg.datasize <= i < remote.Length ==> remote[i] == old(remote[i])
    ensures out.NullSourceFault? || cfg.reps == 0 ==> remote[..] == old(remote[..])
  {
    var buffer := DoAlloc(cfg, osOk);
    if buffer == null {
      if cfg.reps > 0 {
        return NullSourceFault;
      }
      return Measured(totalSize * cfg.reps, [], ReleaseLength(cfg));
    }
    var offsets := CopyReps(remote, buffer, cfg, totalSize);
    if cfg.reps == 0 {
      assert remote[..] == old(remote[..]);
    }
    out := Measured(totalSize * cfg.reps, offsets, ReleaseLength(cfg));
  }

  /** What one source thread ends with. */
  datatype ActiveOutcome =
    | StillWaiting                           // the flag was still 0 after the polls
    | Crashed                                // __compute_bw faulted
    | Finished(bytes: nat, released: nat)    // counted itself done and unmapped the destination buffer

  /**
   * __run_active (shmem.c:128-142): wait for the release flag, transfer into
   * the destination's buffer, add 1 to the completion counter, then unmap the
   * destination's buffer with the length it was mapped with.
   */
  method RunActive(page: SyncPage, remote: array<Byte>, cfg: Config, polls: nat, osOk: bool)
    returns (out: ActiveOutcome)
    requires page.Valid() && NoSizeWrap(cfg)
    requires remote.Length == BufferLength(cfg)
    modifies page.words, remote
    ensures out.StillWaiting? <==> old(page.Flag()) == 0
    ensures out.Finished? ==> out.bytes == cfg.datasize * cfg.reps && out.released == BufferLength(cfg)
    ensures page.Flag() == old(page.Flag())
    ensures page.Counter() == old(page.Counter()) + (if out.Finished? then 1 else 0)
    ensures forall i :: 0 <= i < page.words.Length && i != CounterSlot ==> page.words[i] == old(page.words[i])
    ensures out.Finished? && cfg.reps > 0 ==> forall i :: 0 <= i < cfg.datasize ==> remote[i] == 1
    ensures forall i :: cfg.datasize <= i < remote.Length ==> remote[i] == old(remote[i])
    ensures !out.Finished? || cfg.reps == 0 ==> remote[..] == old(remote[..])
  {
    var passed := page.Wait(polls);
    if !passed {
      return StillWaiting;
    }
    var bw := ComputeBw(remote, cfg, cfg.datasize, osOk);
    if bw.NullSourceFault? {
      return Crashed;
    }
    page.Signal();
    out := Finished(bw.bytes, ReleaseLength(cfg));
  }

  // ---------------------------------------------------------------------------
  // The round loop of main
  // ---------------------------------------------------------------------------

  /**
   * One finished round: its index, the tag (the count argument) passed to __run, the pairs
   * started, count, and the byte total credited to the round
   * (count * reps * datasize).
   */
  datatype RoundLog = RoundLog(round: nat, tag: nat, pairs: seq<Pair>, count: nat, bytes: nat)

  /** The round log the schedule calls for. */
  function ExpectedRound(cfg: Config, nbcores: nat, round: nat): RoundLog
    requires 1 <= round <= nbcores / 2
  {
    var pairs := RoundSpec(cfg.mode, nbcores, round);
    RoundLog(round, Label(cfg.mode, nbcores, round), pairs, |pairs|, |pairs| * cfg.reps * cfg.datasize)
  }

  /** Bytes the sources of `pairs` move together when each moves `perPair`. */
  function SumBytes(pairs: seq<Pair>, perPair: nat): nat {
    if pairs == [] then 0 else perPair + SumBytes(pairs[1..], perPair)
  }

  /** The round total count * reps * datasize is the sum over the round's pairs of reps * datasize. */
  lemma {:induction false} CreditedBytesIsSumOverPairs(pairs: seq<Pair>, reps: nat, datasize: nat)
    ensures SumBytes(pairs, reps * datasize) == |pairs| * reps * datasize
  {
    if pairs != [] {
      CreditedBytesIsSumOverPairs(pairs[1..], reps, datasize);
      var n, m := |pairs|, reps * datasize;
      assert n * reps * datasize == n * m && (n - 1) * reps * datasize == (n - 1) * m;
      assert n * m == (n - 1) * m + m;
    }
  }

  /**
   * The body of one round of main (shmem.c:212-237): reset the flag and the
   * counter, start the round's pairs (destinations map their buffers, sources
   * spin on the flag), set the flag, let every source pass __wait and count
   * itself done, and return once the counter has reached count.
   */
  method RunRound(page: SyncPage, cfg: Config, nbcores: nat, round: nat) returns (entry: RoundLog)
    requires page.Valid() && 1 <= round <= nbcores / 2
    modifies page.words
    ensures entry == ExpectedRound(cfg, nbcores, round)
    ensures page.Flag() == 1 && page.Counter() == entry.count
    ensures forall i :: 0 <= i < page.words.Length && i != FlagSlot && i != CounterSlot ==>
      page.words[i] == old(page.words[i])
  {
    page.ResetFlag();
    page.ResetCounter();
    var pairs, count := RoundPairs(cfg.mode, nbcores, round);
    var tag := if cfg.mode == Intra then (round + 1) / 2 else round;
    page.Release();
    var done := 0;
    while done < count
      invariant 0 <= done <= count
      invariant page.Flag() == 1 && page.Counter() == done
      invariant forall i :: 0 <= i < page.words.Length && i != FlagSlot && i != CounterSlot ==>
        page.words[i] == old(page.words[i])
    {
      var passed := page.Wait(0);
      assert passed;
      page.Signal();
      done := done + 1;
    }
    var drained := page.AwaitDrained(count, 0);
    assert drained;
    entry := RoundLog(round, tag, pairs, count, count * cfg.reps * cfg.datasize);
  }

  /**
   * The round loop of main (shmem.c:209-238): rounds 1..nbcores/2, where an
   * intra-socket round bumps the round index a second time, so only odd
   * rounds run.
   */
  method RunRounds(page: SyncPage, cfg: Config, nbcores: nat) returns (log: seq<RoundLog>)
    requires page.Valid()
    modifies page.words
    ensures var rs := RoundsRun(cfg.mode, nbcores);
      && |log| == |rs|
      && forall k :: 0 <= k < |rs| ==> 1 <= rs[k] <= nbcores / 2 && log[k] == ExpectedRound(cfg, nbcores, rs[k])
    ensures log != [] ==> page.Flag() == 1 && page.Counter() == log[|log| - 1].count
    ensures log == [] ==> page.words[..] == old(page.words[..])
    ensures forall i :: 0 <= i < page.words.Length && i != FlagSlot && i != CounterSlot ==>
      page.words[i] == old(page.words[i])
  {
    var nbRounds := nbcores / 2;
    var round := 1;
    log := [];
    ghost var rs := RoundsRun(cfg.mode, nbcores);
    while round <= nbRounds
      invariant 1 <= round <= nbRounds + 2
      invariant cfg.mode == Inter ==> round == |log| + 1 && round <= nbRounds + 1
      invariant cfg.mode == Intra ==> round == 2 * |log| + 1
      invariant |log| <= |rs|
      invariant forall k :: 0 <= k < |log| ==> 1 <= rs[k] <= nbRounds && log[k] == ExpectedRound(cfg, nbcores, rs[k])
      invariant log != [] ==> page.Flag() == 1 && page.Counter() == log[|log| - 1].count
      invariant log == [] ==> page.words[..] == old(page.words[..])
      invariant forall i :: 0 <= i < page.words.Length && i != FlagSlot && i != CounterSlot ==>
        page.words[i] == old(page.words[i])
      decreases nbRounds + 2 - round
    {
      assert |log| < |rs| && rs[|log|] == round;
      var entry := RunRound(page, cfg, nbcores, round);
      log := log + [entry];
      if cfg.mode == Intra {
        round := round + 1;
      }
      round := round + 1;
    }
  }
}
