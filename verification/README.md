# memmapper: a Dafny model of the benchmark's integer and sequential core

memmapper measures memory bandwidth between CPU cores on a NUMA machine.

- `shmem` pairs threads that copy with `memcpy`.
- `cma` pairs processes that push their buffers with `process_vm_writev`.
- `cache` sweeps `memcpy` over doubling sizes.
- `gen.py` writes the shell script that runs the whole campaign.

This project models the part of those programs that is integers, buffers and sequences, and proves what it promises:

- the getopt/switch loop that folds the command line into a configuration (mode, temperature, data size, repetitions);
- the round scheduler that decides which (source core, destination core) pairs run in each round;
- `__do_alloc` and the per-repetition slice arithmetic of `__compute_bw`, including the copy into the destination buffer;
- the one-page shared flag/counter used as a barrier, stepped sequentially;
- the size-doubling sweep of `cache.c`, with its `nb_reps` rule and random fill;
- the run plan of `gen.py`, and the fact that the flags it writes mean to the two C option parsers what its table says.

Modules, one per file:

| file | module | models |
|---|---|---|
| mem.dfy | `Mem` | bytes; `memset` and `memcpy` on arrays |
| options.dfy | `Options` | the configuration globals, `strtol`, `getopt`, and the switch loop |
| schedule.dfy | `Schedule` | pairs and rounds |
| buffers.dfy | `Buffers` | `mmap`, buffer lengths and slices, and `__do_alloc` with the `MAP_FAILED` test (shmem.c) |
| barrier.dfy | `Barrier` | the shared page as a class over an `int` array |
| shmem.dfy | `Shmem` | `__compute_bw`, `__run_active`, and the round loop of shmem.c |
| cma.dfy | `Cma` | `__do_alloc` as written in cma.c, `__compute_bw` with iovecs, the writer child, and the round loop |
| cache.dfy | `Cache` | `main` of cache.c |
| gen.dfy | `Gen` | gen.py |

Modelling choices:

- **Machine and operating system.**
  - `nbcores` (from hwloc) is a parameter.
  - Whether the system grants a mapping (`osOk`) is a parameter.
  - `mmap` of length 0 fails with `MAP_FAILED`, as Linux does.
  - What `process_vm_writev` returns on each repetition is a parameter.
  - The values `rand()` returns are a function from draw number to value.
- **Integer types.**
  - `size_t` quantities are `nat`. The product `datasize * reps` is required to stay below 2^64, so it does not wrap.
  - `strtol` saturates at `LONG_MAX`.
- **Spin loops and concurrency.** Spin loops poll a bounded number of times. The participants of a round run one after another, with no interleaving.

## Model

| member | source | states |
|---|---|---|
| Mem.Memset | shmem.c:75 | the first n bytes become v; every later byte keeps its value |
| Mem.Memcpy | shmem.c:95 | the first n destination bytes equal the n source bytes from the offset; destination bytes at or beyond n keep their values |
| Options.Strtol | shmem.c:187-188 | never above LONG_MAX; on a plain decimal numeral not above LONG_MAX, the number it denotes |
| Options.SkipSpace | shmem.c:187 | the result is a suffix of the input; everything dropped is white space; the result does not start with white space |
| Options.LeadingDigits | shmem.c:187 | the result is the longest all-digit prefix |
| Options.LastIndex | shmem.c:183-188 | -1 when no option has a flag in the set; otherwise an index whose flag is in the set, with no such flag after it |
| Options.ExpectedConfigStep | shmem.c:183-188 | appending one setting option changes exactly the setting its case writes |
| Options.LastIndexAppend | shmem.c:183-188 | appending an option makes it the last of its flags and leaves every other setting's last option where it was |
| Options.LaterOptionOverrides | shmem.c:183-188 | of two consecutive options for the same setting, only the later one matters |
| Options.ParseOptions | shmem.c:178-193 | the switch loop returns help iff some option has no setting case; otherwise the defaults (INTRA, HOT, 25 MiB, 100) overwritten by the last occurrence of each setting |
| Options.PFlagPrintsHelp | cma.c:172-184 | cma's getopt returns 'p' for `-p`, which has no case and prints help; shmem's getopt returns '?', which also prints help |
| Schedule.Label | shmem.c:221 | the label passed to `__run` equals the number of pairs in the round |
| Schedule.RoundPairs | shmem.c:217-231 | the pairs are exactly (i, i+nbcores/2) for i < round (inter), or (i, (i+1) mod (nbcores/2)) for even i < round (intra), in loop order; count is their number |
| Schedule.RoundsRunAreOddForIntra | shmem.c:210-223 | rounds run in increasing order within 1..nbcores/2; all of them for inter; for intra, exactly the odd ones |
| Schedule.InterRoundFacts | shmem.c:227-231 | round r has r pairs; sources are in the lower half and destinations in the upper half; no pair is a self-pair; sources are distinct and so are destinations |
| Schedule.IntraRoundFacts | shmem.c:218-222 | round r has (r+1)/2 pairs; every core is below nbcores/2; sources are distinct and so are destinations |
| Schedule.IntraSelfPairIffSingleCoreHalf | shmem.c:221 | no intra pair has source == destination iff nbcores/2 >= 2 |
| Schedule.FourCoresIntra | cma.c:204-216 | with 4 cores in intra mode, only round 1 runs, with the single pair (0, 1) |
| Buffers.ReleaseLength | shmem.c:100 | every munmap length, shmem.c:100, shmem.c:139, cma.c:136 and cma.c:153, equals the length `__do_alloc` mapped |
| Buffers.SliceInBuffer | shmem.c:85-92 | for rep < reps, the datasize bytes at the repetition's offset lie inside the buffer |
| Buffers.ColdSlicesDisjoint | shmem.c:88-91 | cold slices of different repetitions do not overlap |
| Buffers.HotSlicesCoincide | shmem.c:87 | a hot repetition reads offset 0, and its slice is the whole buffer |
| Buffers.DoAlloc | shmem.c:59-78 | null iff mmap returns MAP_FAILED; otherwise a fresh buffer of datasize bytes (hot) or datasize*reps bytes (cold), every byte 1 |
| Buffers.ZeroDatasizeFailsToAllocate | shmem.c:62-68 | datasize 0 always makes mmap fail |
| Barrier.SyncPage.constructor | shmem.c:173 | a one-page shared mapping with every int 0 |
| Barrier.SyncPage.Store | shmem.c:212 | one slot gets the value; no other slot changes |
| Barrier.SyncPage.ResetFlag | shmem.c:212 | the flag is 0; no other slot changes |
| Barrier.SyncPage.ResetCounter | shmem.c:213 | the counter (int slot sizeof(int*)) is 0; no other slot changes |
| Barrier.SyncPage.Release | shmem.c:234 | the flag is 1; no other slot changes |
| Barrier.SyncPage.Signal | shmem.c:136-138 | the counter goes up by exactly 1; no other slot changes |
| Barrier.SyncPage.Wait | shmem.c:115-118 | passes iff the flag is not 0 |
| Barrier.SyncPage.AwaitDrained | shmem.c:235 | drained iff counter >= count |
| Shmem.CopyReps | shmem.c:85-99 | repetition k reads datasize bytes at its SourceOffset, inside the source buffer; after at least one repetition the destination's first datasize bytes are the source's 1s; bytes beyond datasize are never written, and with no repetitions nothing is |
| Shmem.ComputeBw | shmem.c:80-102 | byte count total_size*reps; repetition k reads from its SourceOffset, inside the source buffer; after at least one repetition, destination bytes below datasize are 1 and those beyond are unchanged; a fault iff the source mapping failed and reps > 0 |
| Shmem.RunActive | shmem.c:128-142 | waits iff the flag is 0; when it finishes, the counter is one higher, the destination's first datasize bytes are 1 (reps > 0), and it unmaps the mapped length; destination bytes beyond datasize never change, and nothing in the destination changes when it waits or crashes; the flag is untouched |
| Shmem.CreditedBytesIsSumOverPairs | shmem.c:237 | count*reps*datasize equals the sum of reps*datasize over the round's pairs |
| Shmem.RunRound | shmem.c:212-237 | the round's log is its scheduled pairs, count and label, with count*reps*datasize bytes; it ends with flag 1 and counter == count; no other slot of the page changes |
| Shmem.RunRounds | shmem.c:209-238 | one log entry per scheduled round, in order, each equal to that round's expected log; only the flag and counter slots are written |
| Cma.DoAllocAsWritten | cma.c:56-75 | never returns NULL; when mmap fails for a non-zero length, memset faults writing through MAP_FAILED; when the length is 0, the MAP_FAILED address itself is handed back; otherwise a fresh buffer of the mapped length, every byte 1 |
| Cma.ZeroDatasizeSlipsPastNullTest | cma.c:65-67 | datasize 0 gives MAP_FAILED, which is not NULL |
| Cma.ComputeBw | cma.c:77-117 | local and remote iovecs are equal, at SourceOffset with length datasize and inside the buffer; it stops at the first -1 with EXIT_FAILURE and makes no later call; otherwise, short writes included, bytes = total_size*reps |
| Cma.RunWriter | cma.c:139-156 | faults iff mmap fails and datasize > 0 (in `__do_alloc`'s memset, or in its own memset after a zero-length mapping); otherwise passes the flag iff it is not 0, then sends only inside its buffer and unmaps the mapped length; after a failed zero-length mapping every iovec has length 0 |
| Cma.RunRound | cma.c:206-226 | the log is the scheduled pairs and count, with count*reps*datasize bytes; the flag ends at 1 and no other slot changes |
| Cma.RunRounds | cma.c:203-230 | one log entry per scheduled round, in order; only the flag slot is written |
| Cache.SweepEnds | cache.c:11-12 | MIN_SIZE = 2^12 and MAX_SIZE = 2^34 |
| Cache.OnlyLastSizePassesMax | cache.c:30 | among 2^0..2^35 only 2^35 exceeds MAX_SIZE, so the loop stops after the 2^34 step, 23 steps in all |
| Cache.FillRandom | cache.c:32-34 | source[i] = rand() % 256 for i < size; later bytes are unchanged |
| Cache.RunStep | cache.c:32-47 | the step's nb_reps follows the size table; the source prefix is filled and the target prefix equals it; bytes beyond size are unchanged in both buffers |
| Cache.Sweep | cache.c:16-65 | MAP_FAILED iff a mapping fails; otherwise 23 steps of sizes 2^12..2^34, each at most MAX_SIZE with its nb_reps; the target ends equal to the source, which holds the last fill |
| Cache.RepsNonIncreasing | cache.c:35-41 | nb_reps never grows with the size |
| Cache.SweepRepsNonIncreasing | cache.c:30-41 | each sweep step's nb_reps is at most the previous step's |
| Gen.NatToString | gen.py:26 | a non-empty digit string without leading zeros |
| Gen.NatToStringValue | gen.py:26 | the numeral denotes the number |
| Gen.StrtolReadsNatToString | gen.py:26 | strtol reads back every numeral str writes |
| Gen.RepsRule | gen.py:18-24 | reps follow the table by size class; above 25MB it is 10 whatever the temp; it is 100000 iff below 25MB and not noreuse |
| Gen.RepsTable | gen.py:18-24 | 100000 for 1MB reuse; 100 for 1MB noreuse and for 25MB; 10 for 200MB |
| Gen.ComboAt | gen.py:14-17 | the k-th combination visited is valid and has position k |
| Gen.ComboAtIndex | gen.py:14-17 | every combination is visited exactly once, at its position 12t+6p+3m+s |
| Gen.EmitOne | gen.py:25-26 | emitting the next combination extends the echo/command pairs by one |
| Gen.Benchmarks | gen.py:14-26 | 48 lines: for each combination in loop order, its echo line and then its command line |
| Gen.CudaRuns | gen.py:29-31 | six lines: an echo line and a command line per size |
| Gen.Generate | gen.py:10-34 | 59 lines: the three header lines, the 24 echo/command pairs in temp, prog, mode, size order, the three cuda pairs, the two cache lines |
| Gen.FourWordsOptions | shmem.c:178 | for an option string where the mode and temp letters take no argument and s and r do, getopt on `-m -t -s size -r reps` returns those four options in order, whatever the size and reps words are |
| Gen.PlanArgsOptions | gen.py:26 | getopt returns the mode flag, the temp flag, `-s size` and `-r reps`, in that order |
| Gen.OneOptionPerSetting | shmem.c:183-188 | one option per setting yields exactly that configuration |
| Gen.PlanArgsParse | gen.py:5-6 | both C parsers read each command as its combination: intersocket selects INTER and intrasocket INTRA; noreuse selects COLD and reuse HOT; size and reps read back exactly |
| Gen.LogPathsDistinct | gen.py:26 | different combinations write different log files |
| Gen.PlanBuffersBounded | gen.py:23-24 | no run's datasize*reps wraps, and no buffer exceeds 25MB*100 |

## Left out

- hwloc topology loading and `__pin_to_core`: foreign library calls. `nbcores` is a parameter.
- Threads, `fork`, `pthread_join`, the mutex, `pause`, `sleep`, `kill` and `wait`: their point is concurrency, which is not modelled. The page is stepped sequentially, and the round methods do not perform the per-pair transfers: those are `Shmem.RunActive` and `Cma.RunWriter`, one participant at a time.
- Barrier.SyncPage.Wait: spins at most `polls` times instead of forever. With no other participant running in between, the outcome is the same.
- Barrier.SyncPage.AwaitDrained: bounded in the same way.
- The cma reader child is not a member of its own. It maps its buffer as `Cma.DoAllocAsWritten` does and then pauses until the writer's SIGTERM kills it, so its munmap at cma.c:136 never runs. A writer that faults never sends that SIGTERM, so its reader pauses forever and the round's `wait` loop at cma.c:227 never ends; that hang is not modelled.
- Cma.RunRound: the `while (wait(NULL) > 0)` reaping loop at cma.c:227 is not modelled; the round ends once the flag is set.
- Barrier.SyncPage.constructor: the start page's mmap (shmem.c:173, cma.c:169) is never checked against MAP_FAILED; the model always gets its page, and a refused mapping, which would make the first flag store fault, is not modelled.
- shmem's destination thread is `Buffers.DoAlloc`. The `assert(a->ret != NULL)` at shmem.c:159, which aborts the program when that mapping fails, is not modelled.
- What `process_vm_writev` does to the other process's memory: cross-process OS behaviour.
- `gettimeofday`/`clock` timestamps and every bandwidth or latency computed in `double`. Only the integer byte counts are kept.
- `printf`/`fprintf` reports and the text of `help()`.
- cuda.c and main.c: CUDA runtime calls and a single huge-page probe.
- The values `rand()` returns beyond their range: they are a parameter.
- Options.Strtol: requires a non-negative numeral. `strtol` of a negative number assigned to a `size_t` wraps, and that is not modelled.
- Options.ParseOptions: requires every `-s`/`-r` argument to be non-negative, for the same reason.
- Buffers.DoAlloc: requires datasize*reps < 2^64. The `size_t` wrap-around of the cold length is not modelled.
- Shmem.ComputeBw, Shmem.RunActive, Cma.DoAllocAsWritten and Cma.RunWriter: the same datasize*reps < 2^64 requirement.
- Options.GetOpt models short options only: clusters, attached or separate arguments, `--`, and GNU's skipping of non-option words. Long options, `POSIXLY_CORRECT` and optional arguments are absent; none of the option strings uses them.
- Gen.Command joins the argument words with single spaces, which is the same text the format string produces.

## Findings

| source | as written | input that shows it | evidently intended | confidence | as-written member | corrected member |
|---|---|---|---|---|---|---|
| cma.c:67 | `__do_alloc` tests the mmap result against NULL, which mmap never returns, so a failed mapping is never reported and memset writes through MAP_FAILED | datasize 0 (mmap fails with EINVAL), or any refused mapping | test against MAP_FAILED and return NULL, as shmem.c:70 does | high; not executed | Cma.DoAllocAsWritten | Buffers.DoAlloc |
