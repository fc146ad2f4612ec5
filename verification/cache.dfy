/**
 * The memcpy sweep of cache.c: two MAX_SIZE mappings, and for sizes doubling
 * from 4 KiB up to 16 GiB, fill the first `size` source bytes with rand() % 256
 * and copy them to the target nb_reps times, where nb_reps steps down from
 * 100000 to 1000 above 16 MiB and to 100 above 1 GiB.
 *
 * rand() is a parameter: the stream of values successive calls return.
 * Timing and printing are not modelled.
 */
module Cache {
  import opened Mem

  const KB: nat := 1024
  const MB: nat := 1024 * KB
  const GB: nat := 1024 * MB
  /** MIN_SIZE and MAX_SIZE. */
  const MinSize: nat := 4 * KB
  const MaxSize: nat := 16 * GB
  /** NUM_REPS. */
  const NumReps: nat := 100000

  function Pow2(n: nat): (p: nat)
    ensures p >= 1
  {
    if n == 0 then 1 else 2 * Pow2(n - 1)
  }

  lemma {:induction false} Pow2Increasing(a: nat, b: nat)
    requires a < b
    ensures Pow2(a) < Pow2(b)
  {
    if a < b - 1 {
      Pow2Increasing(a, b - 1);
    }
  }

  /** The sweep's end points are powers of two: MIN_SIZE = 2^12 and MAX_SIZE = 2^34. */
  lemma SweepEnds()
    ensures Pow2(12) == MinSize && Pow2(34) == MaxSize
  {
    assert Pow2(12) == 4096;
    assert Pow2(24) == 4096 * 4096;
    assert Pow2(34) == Pow2(24) * 1024;
  }

  /** nb_reps as a table of size ranges. */
  function RepsForSize(size: nat): nat {
    if size <= 16 * MB then 100000 else if size <= GB then 1000 else 100
  }

  /** One step of the sweep: the size, nb_reps, and the bytes copied (size * nb_reps). */
  datatype Step = Step(size: nat, reps: nat, bytes: nat)

  function StepFor(size: nat): Step {
    Step(size, RepsForSize(size), size * RepsForSize(size))
  }

  /** How main ends: MAP_FAILED on either mapping, or the steps and both buffers just before munmap. */
  datatype SweepOutcome = MapFailure | Swept(steps: seq<Step>, source: seq<Byte>, target: seq<Byte>)

  /** The fill loop (cache.c:32-34): source[i] = rand() % 256 for i < size, using the draws from `first` on. */
  method FillRandom(source: array<Byte>, size: nat, rand: nat -> nat, first: nat)
    requires size <= source.Length
    modifies source
    ensures forall i :: 0 <= i < size ==> source[i] == (rand(first + i) % 256) as Byte
    ensures forall i :: size <= i < source.Length ==> source[i] == old(source[i])
  {
    var i := 0;
    while i < size
      invariant 0 <= i <= size
      invariant forall j :: 0 <= j < i ==> source[j] == (rand(first + j) % 256) as Byte
      invariant forall j :: i <= j < source.Length ==> source[j] == old(source[j])
    {
      source[i] := (rand(first + i) % 256) as Byte;
      i := i + 1;
    }
  }

  /**
   * One pass of the sweep loop's body (cache.c:32-47): fill source[0..size),
   * pick nb_reps, and copy source[0..size) to the target nb_reps times. Bytes
   * at or beyond `size` are untouched in both buffers.
   */
  method RunStep(source: array<Byte>, target: array<Byte>, size: nat, rand: nat -> nat, draws: nat)
    returns (step: Step)
    requires source != target && size <= source.Length && size <= target.Length
    modifies source, target
    ensures step == StepFor(size)
    ensures forall i :: 0 <= i < size ==> source[i] == (rand(draws + i) % 256) as Byte && target[i] == source[i]
    ensures forall i :: size <= i < source.Length ==> source[i] == old(source[i])
    ensures forall i :: size <= i < target.Length ==> target[i] == old(target[i])
  {
    FillRandom(source, size, rand, draws);
    var nbReps := NumReps;
    if size > 16 * MB {
      nbReps := nbReps / 100;
      if size > GB {
        nbReps := nbReps / 10;
      }
    }
    var rep := 0;
    while rep < nbReps
      invariant 0 <= rep <= nbReps
      invariant rep > 0 ==> forall i :: 0 <= i < size ==> target[i] == source[i]
      invariant forall i :: size <= i < target.Length ==> target[i] == old(target[i])
      invariant forall i :: 0 <= i < size ==> source[i] == (rand(draws + i) % 256) as Byte
      invariant forall i :: size <= i < source.Length ==> source[i] == old(source[i])
    {
      Memcpy(target, source, 0, size);
      rep := rep + 1;
    }
    step := Step(size, nbReps, size * nbReps);
  }

  /**
   * main of cache.c: 23 steps of sizes 2^12 .. 2^34, each with the nb_reps of
   * its size; every copy stays inside the two MAX_SIZE buffers; at the end the
   * source holds the last fill (the draws after the 2^34 - 2^12 earlier ones)
   * and the target a copy of it.
   */
  method Sweep(osOk: bool, rand: nat -> nat) returns (out: SweepOutcome)
    ensures out.MapFailure? <==> !osOk
    ensures out.Swept? ==>
      && |out.steps| == 23
      && (forall k {:trigger out.steps[k]} :: 0 <= k < 23 ==> out.steps[k] == StepFor(Pow2(12 + k)) && out.steps[k].size <= MaxSize)
      && |out.source| == MaxSize && |out.target| == MaxSize
      && (forall i :: 0 <= i < MaxSize ==> out.source[i] == (rand(MaxSize - MinSize + i) % 256) as Byte)
      && out.target == out.source
  {
    if !osOk {
      return MapFailure;
    }
    SweepEnds();
    var source := new Byte[MaxSize](_ => 0);
    var target := new Byte[MaxSize](_ => 0);
    var steps: seq<Step> := [];
    var draws := 0;
    var filled := 0;
    ghost var last: nat := 0;  // the first draw of the last fill
    ghost var e: nat := 12;    // size == 2^e
    var size := MinSize;
    while size <= MaxSize
      invariant e == 12 + |steps| <= 35 && size == Pow2(e)
      invariant e == 35 ==> size > MaxSize
      invariant StepsSoFar(steps)
      invariant draws + MinSize == size && last + filled == draws
      invariant filled <= MaxSize && (if steps == [] then filled == 0 else size == 2 * filled)
      invariant forall i :: 0 <= i < filled ==> source[i] == (rand(last + i) % 256) as Byte
      invariant forall i :: 0 <= i < filled ==> target[i] == source[i]
      invariant forall i :: filled <= i < MaxSize ==> source[i] == 0 && target[i] == 0
      decreases MaxSize - size
    {
      var step := RunStep(source, target, size, rand, draws);
      StepsExtend(steps, step);
      steps := steps + [step];
      last := draws;
      draws := draws + size;
      filled := size;
      size := size * 2;
      e := e + 1;
    }
    OnlyLastSizePassesMax(e);
    out := Swept(steps, source[..], target[..]);
  }

  /** The loop's exit: the first power of two above MAX_SIZE, with at most 35 doublings, is 2^35. */
  lemma OnlyLastSizePassesMax(e: nat)
    requires e <= 35 && Pow2(e) > MaxSize
    ensures e == 35
  {
    SweepEnds();
    if e < 34 {
      Pow2Increasing(e, 34);
    }
  }

  /** The steps of the sweep so far: step k has size 2^(12+k), at most MAX_SIZE. */
  ghost predicate StepsSoFar(steps: seq<Step>) {
    forall k :: 0 <= k < |steps| ==> steps[k] == StepFor(Pow2(12 + k)) && steps[k].size <= MaxSize
  }

  lemma StepsExtend(steps: seq<Step>, step: Step)
    requires StepsSoFar(steps) && step == StepFor(Pow2(12 + |steps|)) && step.size <= MaxSize
    ensures StepsSoFar(steps + [step])
  {
  }

  /** nb_reps never grows with the size. */
  lemma RepsNonIncreasing(a: nat, b: nat)
    requires a <= b
    ensures RepsForSize(a) >= RepsForSize(b)
  {
  }

  /** Along the sweep, each step's nb_reps is at most the previous step's. */
  lemma {:induction false} SweepRepsNonIncreasing(k: nat)
    requires k < 22
    ensures StepFor(Pow2(12 + k)).reps >= StepFor(Pow2(13 + k)).reps
  {
    Pow2Increasing(12 + k, 13 + k);
  }
}
