/**
 * The shared synchronisation page: an anonymous MAP_SHARED mapping of
 * sizeof(int) bytes, which mmap rounds up to one page, used as an array of
 * ints. Slot 0 is the release flag (0 = hold, 1 = go). shmem.c also keeps a
 * completion counter at `(int *)page + sizeof(int *)`, i.e. int slot 8 on an
 * LP64 target, inside the same page but outside the sizeof(int) bytes asked for.
 *
 * The page is modelled sequentially: each method is one participant's step,
 * with no interleaving between steps.
 */
module Barrier {

  /** sizeof(int) and sizeof(int *) on LP64. */
  const IntSize: nat := 4
  const PtrSize: nat := 8
  /** The page the sizeof(int) request is rounded up to. */
  const PageBytes: nat := 4096
  const PageInts: nat := PageBytes / IntSize

  /** *((int *) start_page): the release flag. */
  const FlagSlot: nat := 0
  /** *((int *) start_page + sizeof(int *)): the completion counter. */
  const CounterSlot: nat := PtrSize

  class SyncPage {
    const words: array<int>

    ghost predicate Valid() {
      words.Length == PageInts
    }

    function Flag(): int
      reads words
      requires Valid()
    {
      words[FlagSlot]
    }

    function Counter(): int
      reads words
      requires Valid()
    {
      words[CounterSlot]
    }

    /** A fresh anonymous mapping: every int reads 0. */
    constructor ()
      ensures Valid() && fresh(words)
      ensures forall i :: 0 <= i < words.Length ==> words[i] == 0
    {
      words := new int[PageInts](_ => 0);
    }

    /** One int store into the page; no other slot changes. */
    method Store(slot: nat, v: int)
      requires Valid() && slot < PageInts
      modifies words
      ensures words[slot] == v
      ensures forall i :: 0 <= i < words.Length && i != slot ==> words[i] == old(words[i])
    {
      words[slot] := v;
    }

    /** The flag is back to hold; the counter and everything else keep their values. */
    method ResetFlag()
      requires Valid()
      modifies words
      ensures Flag() == 0 && Counter() == old(Counter())
      ensures forall i :: 0 <= i < words.Length && i != FlagSlot ==> words[i] == old(words[i])
    {
      Store(FlagSlot, 0);
    }

    /** The counter is back to 0; the flag and everything else keep their values. */
    method ResetCounter()
      requires Valid()
      modifies words
      ensures Counter() == 0 && Flag() == old(Flag())
      ensures forall i :: 0 <= i < words.Length && i != CounterSlot ==> words[i] == old(words[i])
    {
      Store(CounterSlot, 0);
    }

    /** The orchestrator releases the round: the flag becomes 1, the counter is untouched. */
    method Release()
      requires Valid()
      modifies words
      ensures Flag() == 1 && Counter() == old(Counter())
      ensures forall i :: 0 <= i < words.Length && i != FlagSlot ==> words[i] == old(words[i])
    {
      Store(FlagSlot, 1);
    }

    /** A source that finished its repetitions adds exactly 1 to the counter (under the mutex). */
    method Signal()
      requires Valid()
      modifies words
      ensures Counter() == old(Counter()) + 1 && Flag() == old(Flag())
      ensures forall i :: 0 <= i < words.Length && i != CounterSlot ==> words[i] == old(words[i])
    {
      Store(CounterSlot, words[CounterSlot] + 1);
    }

    /**
     * __wait: yield while the flag reads 0. With no other participant running
     * between polls, `polls` yields leave the flag as it was, so the caller
     * gets past the barrier exactly when the flag is not 0.
     */
    method Wait(polls: nat) returns (passed: bool)
      requires Valid()
      ensures passed <==> Flag() != 0
    {
      var spins := 0;
      while words[FlagSlot] == 0 && spins < polls
        invariant spins <= polls
      {
        spins := spins + 1;
      }
      passed := words[FlagSlot] != 0;
    }

    /** The orchestrator's drain loop: yield while the counter is below `count`. */
    method AwaitDrained(count: int, polls: nat) returns (drained: bool)
      requires Valid()
      ensures drained <==> Counter() >= count
    {
      var spins := 0;
      while words[CounterSlot] < count && spins < polls
        invariant spins <= polls
      {
        spins := spins + 1;
      }
      drained := words[CounterSlot] >= count;
    }
  }
}
