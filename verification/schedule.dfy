/**
 * The round scheduler shared by shmem.c and cma.c: which rounds run and which
 * (source core, destination core) pairs each round starts.
 *
 * With nbcores cores, nb_rounds = nbcores / 2 (the size of one socket half).
 * Inter-socket round r pairs core i with core i + nbcores/2 for i < r.
 * Intra-socket round r pairs core i with (i + 1) mod (nbcores/2) for even
 * i < r, and the round loop's body increments the round counter once more, so
 * only the odd rounds 1, 3, 5, ... run.
 */
module Schedule {
  import opened Options

  /** A transfer pair: the source participant's core and the destination participant's core. */
  datatype Pair = Pair(src: nat, dst: nat)

  /** The pairs round `round` starts, in the order the loop starts them. */
  function RoundSpec(mode: Mode, nbcores: nat, round: nat): seq<Pair>
    requires 1 <= round <= nbcores / 2
  {
    var half := nbcores / 2;
    match mode
    case Inter => seq(round, i requires 0 <= i => Pair(i, i + half))
    case Intra => seq((round + 1) / 2, k requires 0 <= k => Pair(2 * k, (2 * k + 1) % half))
  }

  /**
   * The first argument shmem.c passes to __run as the round's label:
   * (round+1)/2 for intra-socket rounds, round for inter-socket ones. It is
   * the number of pairs the round starts.
   */
  function Label(mode: Mode, nbcores: nat, round: nat): (l: nat)
    requires 1 <= round <= nbcores / 2
    ensures l == |RoundSpec(mode, nbcores, round)|
  {
    if mode == Intra then (round + 1) / 2 else round
  }

  /** The round indices the round loop runs, in order. */
  function RoundsRun(mode: Mode, nbcores: nat): seq<nat>
  {
    var half := nbcores / 2;
    match mode
    case Inter => seq(half, k requires 0 <= k => k + 1)
    case Intra => seq((half + 1) / 2, k requires 0 <= k => 2 * k + 1)
  }

  /**
   * The inner loop of one round (shmem.c:217-231, cma.c:210-223): counts the
   * pairs it starts and produces them in order.
   */
  method RoundPairs(mode: Mode, nbcores: nat, round: nat) returns (pairs: seq<Pair>, count: nat)
    requires 1 <= round <= nbcores / 2
    ensures pairs == RoundSpec(mode, nbcores, round)
    ensures count == |pairs|
  {
    var half := nbcores / 2;
    pairs, count := [], 0;
    if mode == Intra {
      var i := 0;
      while i < round
        invariant i % 2 == 0 && 0 <= i <= round + 1
        invariant count == i / 2 == |pairs|
        invariant forall k :: 0 <= k < count ==> pairs[k] == Pair(2 * k, (2 * k + 1) % half)
      {
        count := count + 1;
        pairs := pairs + [Pair(i, (i + 1) % half)];
        i := i + 2;
      }
      assert count == (round + 1) / 2;
    } else {
      var i := 0;
      while i < round
        invariant 0 <= i <= round
        invariant count == i == |pairs|
        invariant forall k :: 0 <= k < count ==> pairs[k] == Pair(k, k + half)
      {
        count := count + 1;
        pairs := pairs + [Pair(i, i + half)];
        i := i + 1;
      }
    }
  }

  // ---------------------------------------------------------------------------
  // Properties of the schedule
  // ---------------------------------------------------------------------------

  /** The rounds run are 1..nbcores/2 for inter-socket and the odd ones among them for intra-socket. */
  lemma RoundsRunAreOddForIntra(mode: Mode, nbcores: nat)
    ensures var rs := RoundsRun(mode, nbcores);
      && (forall k :: 0 <= k < |rs| ==> 1 <= rs[k] <= nbcores / 2)
      && (forall k :: 0 <= k < |rs| - 1 ==> rs[k] < rs[k + 1])
      && (mode == Inter ==> |rs| == nbcores / 2)
      && (mode == Intra ==> forall k :: 0 <= k < |rs| ==> rs[k] % 2 == 1)
      && (mode == Intra ==> forall r :: 1 <= r <= nbcores / 2 && r % 2 == 1 ==> r in rs)
  {
    var rs := RoundsRun(mode, nbcores);
    if mode == Intra {
      forall r | 1 <= r <= nbcores / 2 && r % 2 == 1 ensures r in rs {
        assert rs[(r - 1) / 2] == r;
      }
    }
  }

  /**
   * Inter-socket round r starts exactly r pairs; every source is in the lower
   * socket half and every destination in the upper one, so no pair has
   * source == destination; sources are pairwise distinct and so are
   * destinations.
   */
  lemma InterRoundFacts(nbcores: nat, round: nat)
    requires 1 <= round <= nbcores / 2
    ensures var ps := RoundSpec(Inter, nbcores, round);
      && |ps| == round
      && (forall k :: 0 <= k < |ps| ==> ps[k].src < nbcores / 2 <= ps[k].dst < nbcores)
      && (forall k :: 0 <= k < |ps| ==> ps[k].src != ps[k].dst)
      && (forall j, k :: 0 <= j < k < |ps| ==> ps[j].src != ps[k].src && ps[j].dst != ps[k].dst)
  {
  }

  /** x mod h for 0 < x <= h: x itself below h, 0 at h. */
  lemma ModUpTo(x: nat, h: nat)
    requires 0 < h && x <= h
    ensures x % h == if x < h then x else 0
  {
  }

  /**
   * Intra-socket round r starts (r+1)/2 pairs, all inside the lower socket
   * half; destinations are pairwise distinct and so are sources.
   */
  lemma {:induction false} IntraRoundFacts(nbcores: nat, round: nat)
    requires 1 <= round <= nbcores / 2
    ensures var ps := RoundSpec(Intra, nbcores, round);
      && |ps| == (round + 1) / 2
      && (forall k :: 0 <= k < |ps| ==> ps[k].src < nbcores / 2 && ps[k].dst < nbcores / 2)
      && (forall j, k :: 0 <= j < k < |ps| ==> ps[j].src != ps[k].src && ps[j].dst != ps[k].dst)
  {
    var half := nbcores / 2;
    var ps := RoundSpec(Intra, nbcores, round);
    forall j, k | 0 <= j < k < |ps| ensures ps[j].dst != ps[k].dst {
      ModUpTo(2 * j + 1, half);
      ModUpTo(2 * k + 1, half);
    }
  }

  /**
   * In an intra-socket round a pair has source == destination exactly when the
   * socket half has a single core (nbcores = 2 or 3 gives the pair (0, 0)).
   */
  lemma {:induction false} IntraSelfPairIffSingleCoreHalf(nbcores: nat, round: nat)
    requires 1 <= round <= nbcores / 2
    ensures var ps := RoundSpec(Intra, nbcores, round);
      (forall k :: 0 <= k < |ps| ==> ps[k].src != ps[k].dst) <==> nbcores / 2 >= 2
  {
    var half := nbcores / 2;
    var ps := RoundSpec(Intra, nbcores, round);
    if half >= 2 {
      forall k | 0 <= k < |ps| ensures ps[k].src != ps[k].dst {
        ModUpTo(2 * k + 1, half);
      }
    } else {
      assert ps[0] == Pair(0, 0);
    }
  }

  /** nbcores = 4 in intra-socket mode runs round 1 only, with the single pair (0, 1). */
  lemma FourCoresIntra()
    ensures RoundsRun(Intra, 4) == [1]
    ensures RoundSpec(Intra, 4, 1) == [Pair(0, 1)]
  {
    assert RoundSpec(Intra, 4, 1)[0] == Pair(0, 1);
  }
}
