/**
 * The run-plan generator gen.py: it prints a bash script that builds the
 * programs, runs every temp x prog x mode x size combination of the pair
 * benchmarks with its reps, then the cuda runs and the cache sweep.
 *
 * Python dictionaries iterate in insertion order, so each table is a pair of
 * sequences here: its keys in order and the values they map to. The script
 * is the sequence of lines the print calls write.
 */
module Gen {
  import opened Options
  import opened Buffers

  const Mb: nat := 1024 * 1024

  /** modes: intrasocket -> "-i", intersocket -> "-I". */
  const ModeKeys: seq<string> := ["intrasocket", "intersocket"]
  const ModeFlags: seq<string> := ["-i", "-I"]
  /** temps: reuse -> "-T", noreuse -> "-t". */
  const TempKeys: seq<string> := ["reuse", "noreuse"]
  const TempFlags: seq<string> := ["-T", "-t"]
  /** progs. */
  const Progs: seq<string> := ["cma", "shmem"]
  /** sizes: 1MB, 25MB and 200MB in bytes. */
  const SizeKeys: seq<string> := ["1MB", "25MB", "200MB"]
  const SizeBytes: seq<nat> := [1 * Mb, 25 * Mb, 200 * Mb]

  const Header: seq<string> := ["#!/bin/bash", "mkdir results", "make"]
  const Footer: seq<string> := ["echo 'Caching perf'", "./cache > ./results/caches.log 2>&1"]

  // ---------------------------------------------------------------------------
  // Numbers as text
  // ---------------------------------------------------------------------------

  function DigitChar(d: nat): (c: char)
    requires d < 10
    ensures IsDigit(c) && DigitValue(c) == d
  {
    (d + '0' as int) as char
  }

  /** str(n): the decimal numeral of n, without leading zeros. */
  function NatToString(n: nat): (s: string)
    ensures s != [] && AllDigits(s)
    ensures |s| > 1 ==> s[0] != '0'
    decreases n
  {
    if n < 10 then [DigitChar(n)] else NatToString(n / 10) + [DigitChar(n % 10)]
  }

  /** The numeral denotes n. */
  lemma {:induction false} NatToStringValue(n: nat)
    ensures DecimalValue(NatToString(n)) == n
    decreases n
  {
    var s := NatToString(n);
    if n >= 10 {
      NatToStringValue(n / 10);
      assert s[..|s| - 1] == NatToString(n / 10);
    }
  }

  /** strtol reads back every numeral str writes, up to LONG_MAX. */
  lemma StrtolReadsNatToString(n: nat)
    requires n <= LongMax
    ensures !Negative(NatToString(n)) && Strtol(NatToString(n)) == n
  {
    var s := NatToString(n);
    NatToStringValue(n);
    assert !IsSpace(s[0]) && s[0] != '-';
    assert SkipSpace(s) == s;
  }

  // ---------------------------------------------------------------------------
  // The reps rule
  // ---------------------------------------------------------------------------

  /** The reps a combination gets, as a table by size class. */
  function Reps(temp: string, bytes: nat): nat {
    if bytes > 25 * Mb then 10
    else if bytes < 25 * Mb && temp != "noreuse" then 100000
    else 100
  }

  /**
   * The rule of gen.py:18-24 applied step by step: start at 100, raise to
   * 100000 for sizes below 25MB unless noreuse, then set to 10 above 25MB.
   */
  method RepsRule(temp: string, bytes: nat) returns (reps: nat)
    ensures reps == Reps(temp, bytes)
    ensures bytes > 25 * Mb ==> reps == 10
    ensures reps == 100000 <==> bytes < 25 * Mb && temp != "noreuse"
  {
    reps := 100;
    reps := if bytes < SizeBytes[1] && temp != "noreuse" then 100000 else reps;
    reps := if bytes > SizeBytes[1] then 10 else reps;
  }

  /** The reps for every temp and size of the plan. */
  lemma RepsTable()
    ensures Reps(TempKeys[0], SizeBytes[0]) == 100000 && Reps(TempKeys[1], SizeBytes[0]) == 100
    ensures Reps(TempKeys[0], SizeBytes[1]) == 100 && Reps(TempKeys[1], SizeBytes[1]) == 100
    ensures Reps(TempKeys[0], SizeBytes[2]) == 10 && Reps(TempKeys[1], SizeBytes[2]) == 10
  {
  }

  // ---------------------------------------------------------------------------
  // Combinations and lines
  // ---------------------------------------------------------------------------

  /** One combination, as indices into TempKeys, Progs, ModeKeys and SizeKeys. */
  datatype Combo = Combo(t: nat, p: nat, m: nat, s: nat)

  predicate ValidCombo(c: Combo) {
    c.t < 2 && c.p < 2 && c.m < 2 && c.s < 3
  }

  /** The position of a combination in the nested loops: temp outermost, size innermost. */
  function Index(c: Combo): nat {
    12 * c.t + 6 * c.p + 3 * c.m + c.s
  }

  /** The k-th combination the nested loops visit. */
  function ComboAt(k: nat): (c: Combo)
    requires k < 24
    ensures ValidCombo(c) && Index(c) == k
  {
    Combo(k / 12, (k / 6) % 2, (k / 3) % 2, k % 3)
  }

  /** The loops visit every combination exactly once, at its Index. */
  lemma ComboAtIndex(c: Combo)
    requires ValidCombo(c)
    ensures Index(c) < 24 && ComboAt(Index(c)) == c
  {
  }

  function ComboReps(c: Combo): nat
    requires ValidCombo(c)
  {
    Reps(TempKeys[c.t], SizeBytes[c.s])
  }

  /** " w1 w2 ...": the words joined with a space before each. */
  function Spaced(ws: seq<string>): string {
    if ws == [] then "" else " " + ws[0] + Spaced(ws[1..])
  }

  /** The arguments the benchmark command passes after the program name, as the shell splits them. */
  function Argv(c: Combo): seq<string>
    requires ValidCombo(c)
  {
    [ModeFlags[c.m], TempFlags[c.t], "-s", NatToString(SizeBytes[c.s]), "-r", NatToString(ComboReps(c))]
  }

  function LogPath(c: Combo): string
    requires ValidCombo(c)
  {
    "./results/" + Progs[c.p] + "-" + ModeKeys[c.m] + "-" + TempKeys[c.t] + "-" + SizeKeys[c.s] + ".log"
  }

  /** echo '{p} {m} {t} {s} ({reps})'. */
  function Echo(c: Combo): string
    requires ValidCombo(c)
  {
    "echo '" + Progs[c.p] + " " + ModeKeys[c.m] + " " + TempKeys[c.t] + " " + SizeKeys[c.s]
      + " (" + NatToString(ComboReps(c)) + ")'"
  }

  /** ./{p} {mode flag} {temp flag} -s {bytes} -r {reps} > {log path} 2>&1. */
  function Command(c: Combo): string
    requires ValidCombo(c)
  {
    "./" + Progs[c.p] + Spaced(Argv(c)) + " > " + LogPath(c) + " 2>&1"
  }

  /** echo './cuda {s}'. */
  function CudaEcho(s: nat): string
    requires s < 3
  {
    "echo './cuda " + SizeKeys[s] + "'"
  }

  /** ./cuda {bytes} > ./results/cuda-{s}.log 2>&1. */
  function CudaCommand(s: nat): string
    requires s < 3
  {
    "./cuda " + NatToString(SizeBytes[s]) + " > ./results/cuda-" + SizeKeys[s] + ".log 2>&1"
  }

  /** For each of the first n combinations in loop order: its echo line and, right after it, its command line. */
  ghost predicate Emitted(lines: seq<string>, n: nat) {
    && n <= 24
    && |lines| == 2 * n
    && forall c :: ValidCombo(c) && Index(c) < n ==>
         lines[2 * Index(c)] == Echo(c) && lines[2 * Index(c) + 1] == Command(c)
  }

  /** Emitting the lines of the next combination in loop order keeps Emitted. */
  lemma EmitOne(lines: seq<string>, c: Combo)
    requires ValidCombo(c) && Emitted(lines, Index(c))
    ensures Emitted(lines + [Echo(c), Command(c)], Index(c) + 1)
  {
    var next := lines + [Echo(c), Command(c)];
    forall d | ValidCombo(d) && Index(d) < Index(c) + 1
      ensures next[2 * Index(d)] == Echo(d) && next[2 * Index(d) + 1] == Command(d)
    {
      if Index(d) == Index(c) {
        ComboAtIndex(c);
        ComboAtIndex(d);
      }
    }
  }

  /**
   * The nested loops of gen.py:14-26: temp, then prog, then mode, then size,
   * each combination printing its echo line and then its command line, with
   * reps chosen by the rule of RepsRule.
   */
  method Benchmarks() returns (lines: seq<string>)
    ensures Emitted(lines, 24)
  {
    lines := [];
    for t := 0 to |TempKeys|
      invariant Emitted(lines, 12 * t)
    {
      for p := 0 to |Progs|
        invariant Emitted(lines, 12 * t + 6 * p)
      {
        for m := 0 to |ModeKeys|
          invariant Emitted(lines, 12 * t + 6 * p + 3 * m)
        {
          for s := 0 to |SizeKeys|
            invariant Emitted(lines, 12 * t + 6 * p + 3 * m + s)
          {
            var reps := RepsRule(TempKeys[t], SizeBytes[s]);
            var path := "./results/" + Progs[p] + "-" + ModeKeys[m] + "-" + TempKeys[t] + "-" + SizeKeys[s] + ".log";
            var echo := "echo '" + Progs[p] + " " + ModeKeys[m] + " " + TempKeys[t] + " " + SizeKeys[s]
              + " (" + NatToString(reps) + ")'";
            var command := "./" + Progs[p] + Spaced([ModeFlags[m], TempFlags[t], "-s", NatToString(SizeBytes[s]), "-r", NatToString(reps)])
              + " > " + path + " 2>&1";
            assert echo == Echo(Combo(t, p, m, s));
            assert command == Command(Combo(t, p, m, s));
            EmitOne(lines, Combo(t, p, m, s));
            lines := lines + [echo, command];
          }
        }
      }
    }
  }

  /** The cuda loop of gen.py:29-31: an echo line and a command line per size. */
  method CudaRuns() returns (lines: seq<string>)
    ensures |lines| == 6
    ensures forall s :: 0 <= s < 3 ==> lines[2 * s] == CudaEcho(s) && lines[2 * s + 1] == CudaCommand(s)
  {
    lines := [];
    for s := 0 to |SizeKeys|
      invariant |lines| == 2 * s
      invariant forall j :: 0 <= j < s ==> lines[2 * j] == CudaEcho(j) && lines[2 * j + 1] == CudaCommand(j)
    {
      lines := lines + ["echo './cuda " + SizeKeys[s] + "'",
                        "./cuda " + NatToString(SizeBytes[s]) + " > ./results/cuda-" + SizeKeys[s] + ".log 2>&1"];
    }
  }

  /**
   * The whole script gen.py prints (gen.py:10-34): the three header lines,
   * the echo and command lines of all 24 combinations in loop order (every
   * line index 3..50 belongs to exactly one combination, by ComboAtIndex and
   * ComboAt), the cuda lines, and the two cache lines.
   */
  method Generate() returns (lines: seq<string>)
    ensures |lines| == 59
    ensures lines[..3] == Header
    ensures forall c :: ValidCombo(c) ==>
      lines[3 + 2 * Index(c)] == Echo(c) && lines[4 + 2 * Index(c)] == Command(c)
    ensures forall s :: 0 <= s < 3 ==> lines[51 + 2 * s] == CudaEcho(s) && lines[52 + 2 * s] == CudaCommand(s)
    ensures lines[57..] == Footer
  {
    var bench := Benchmarks();
    var cuda := CudaRuns();
    lines := Header + bench + cuda + ["echo 'Caching perf'", "./cache > ./results/caches.log 2>&1"];
    assert lines[..3] == Header;
    assert lines[3..51] == bench;
    assert lines[51..57] == cuda;
    assert lines[57..] == Footer;
    forall c | ValidCombo(c)
      ensures lines[3 + 2 * Index(c)] == Echo(c) && lines[4 + 2 * Index(c)] == Command(c)
    {
      ComboAtIndex(c);
      assert lines[3 + 2 * Index(c)] == lines[3..51][2 * Index(c)];
      assert lines[4 + 2 * Index(c)] == lines[3..51][2 * Index(c) + 1];
    }
    forall s | 0 <= s < 3
      ensures lines[51 + 2 * s] == CudaEcho(s) && lines[52 + 2 * s] == CudaCommand(s)
    {
      assert lines[51 + 2 * s] == lines[51..57][2 * s];
      assert lines[52 + 2 * s] == lines[51..57][2 * s + 1];
    }
  }

  // ---------------------------------------------------------------------------
  // What the plan means to the C programs
  // ---------------------------------------------------------------------------

  /** The mode a key of `modes` names, and the temperature a key of `temps` names. */
  function ModeNamed(key: string): Mode {
    if key == "intersocket" then Inter else Intra
  }

  function TempNamed(key: string): Temp {
    if key == "noreuse" then Cold else Hot
  }

  /** What getopt returns for "-m -t -s size -r reps": four options, in the order written. */
  lemma {:induction false} FourWordsOptions(os: OptString, mf: char, tf: char, size: string, reps: string)
    requires mf != '-' && mf in os.letters && mf !in os.withArg
    requires tf != '-' && tf in os.letters && tf !in os.withArg
    requires 's' in os.letters && 's' in os.withArg && 'r' in os.letters && 'r' in os.withArg
    ensures GetOpt(os, [['-', mf], ['-', tf], "-s", size, "-r", reps]) ==
      [Opt(mf, ""), Opt(tf, ""), Opt('s', size), Opt('r', reps)]
  {
    var a := [['-', mf], ['-', tf], "-s", size, "-r", reps];
    assert a[4..] == ["-r", reps] && a[5..] == [reps] && a[5..][1..] == [];
    assert GetOpt(os, a[4..]) == Cluster(os, "r", a[5..]) == [Opt('r', reps)];
    assert a[2..] == ["-s", size] + a[4..] && a[3..] == [size] + a[4..];
    assert GetOpt(os, a[2..]) == Cluster(os, "s", a[3..]) == [Opt('s', size)] + GetOpt(os, a[4..]);
    assert a[1..] == [['-', tf]] + a[2..] && ['-', tf][1..] == [tf] && ['-', tf] != "--";
    assert GetOpt(os, a[1..]) == Cluster(os, [tf], a[2..]) == [Opt(tf, "")] + GetOpt(os, a[2..]);
    assert a[0][1..] == [mf] && a[0] != "--";
    assert GetOpt(os, a) == Cluster(os, [mf], a[1..]) == [Opt(mf, "")] + GetOpt(os, a[1..]);
  }

  /** What getopt returns for the arguments of a command: four options, in the order written. */
  lemma PlanArgsOptions(os: OptString, c: Combo)
    requires os == ShmemOptString || os == CmaOptString
    requires ValidCombo(c)
    ensures GetOpt(os, Argv(c)) == [Opt(ModeFlags[c.m][1], ""), Opt(TempFlags[c.t][1], ""),
                                    Opt('s', NatToString(SizeBytes[c.s])), Opt('r', NatToString(ComboReps(c)))]
  {
    var mf, tf := ModeFlags[c.m][1], TempFlags[c.t][1];
    assert ModeFlags[c.m] == ['-', mf] && TempFlags[c.t] == ['-', tf];
    FourWordsOptions(os, mf, tf, NatToString(SizeBytes[c.s]), NatToString(ComboReps(c)));
  }

  /** In "-m -t -s size -r reps" each setting's last option is its only one. */
  lemma FourOptionsLastIndices(mf: char, tf: char, size: string, reps: string)
    requires (mf == 'i' || mf == 'I') && (tf == 't' || tf == 'T')
    ensures var opts := [Opt(mf, ""), Opt(tf, ""), Opt('s', size), Opt('r', reps)];
      && LastIndex(opts, {'i', 'I'}) == 0 && LastIndex(opts, {'t', 'T'}) == 1
      && LastIndex(opts, {'s'}) == 2 && LastIndex(opts, {'r'}) == 3
  {
    var opts := [Opt(mf, ""), Opt(tf, ""), Opt('s', size), Opt('r', reps)];
    assert LastIndex(opts, {'i', 'I'}) == 0 by {
      assert opts[0].flag in {'i', 'I'} && forall k :: 0 < k < 4 ==> opts[k].flag !in {'i', 'I'};
    }
    assert LastIndex(opts, {'t', 'T'}) == 1 by {
      assert opts[1].flag in {'t', 'T'} && forall k :: 1 < k < 4 ==> opts[k].flag !in {'t', 'T'};
    }
    assert LastIndex(opts, {'s'}) == 2 by {
      assert opts[2].flag in {'s'} && opts[3].flag !in {'s'};
    }
    assert LastIndex(opts, {'r'}) == 3 by {
      assert opts[3].flag in {'r'};
    }
  }

  /** One mode option, one temp option, then -s and -r: each setting comes from its own option. */
  lemma OneOptionPerSetting(mf: char, tf: char, size: string, reps: string)
    requires (mf == 'i' || mf == 'I') && (tf == 't' || tf == 'T')
    requires !Negative(size) && !Negative(reps)
    ensures var opts := [Opt(mf, ""), Opt(tf, ""), Opt('s', size), Opt('r', reps)];
      && NoNegativeArgs(opts)
      && Expected(opts) == Run(Config(if mf == 'I' then Inter else Intra, if tf == 't' then Cold else Hot,
                                      Strtol(size), Strtol(reps)))
  {
    var opts := [Opt(mf, ""), Opt(tf, ""), Opt('s', size), Opt('r', reps)];
    assert !HasHelpOption(opts);
    forall k | 0 <= k < |opts| && (opts[k].flag == 's' || opts[k].flag == 'r')
      ensures !Negative(opts[k].arg)
    {
      if k == 2 {
        assert opts[k].arg == size;
      } else {
        assert k == 3 && opts[k].arg == reps;
      }
    }
    FourOptionsLastIndices(mf, tf, size, reps);
    assert opts[0].flag == mf && opts[1].flag == tf && opts[2].arg == size && opts[3].arg == reps;
    var cfg := ExpectedConfig(opts);
    assert cfg.mode == if mf == 'I' then Inter else Intra;
    assert cfg.temp == if tf == 't' then Cold else Hot;
    assert cfg.datasize == Strtol(size) && cfg.reps == Strtol(reps);
  }

  /**
   * Both C option parsers read every command's arguments as the combination
   * it names: intrasocket/intersocket select INTRAMODE/INTERMODE, reuse
   * selects HOT and noreuse COLD, and -s and -r read back the size and reps.
   */
  lemma PlanArgsParse(os: OptString, c: Combo)
    requires os == ShmemOptString || os == CmaOptString
    requires ValidCombo(c)
    ensures NoNegativeArgs(GetOpt(os, Argv(c)))
    ensures Expected(GetOpt(os, Argv(c))) ==
      Run(Config(ModeNamed(ModeKeys[c.m]), TempNamed(TempKeys[c.t]), SizeBytes[c.s], ComboReps(c)))
  {
    var mf, tf := ModeFlags[c.m][1], TempFlags[c.t][1];
    var size, reps := NatToString(SizeBytes[c.s]), NatToString(ComboReps(c));
    PlanArgsOptions(os, c);
    assert ModeNamed(ModeKeys[c.m]) == if mf == 'I' then Inter else Intra;
    assert TempNamed(TempKeys[c.t]) == if tf == 't' then Cold else Hot;
    StrtolReadsNatToString(SizeBytes[c.s]);
    StrtolReadsNatToString(ComboReps(c));
    OneOptionPerSetting(mf, tf, size, reps);
  }

  /**
   * The 24 log paths are pairwise distinct, so no run overwrites another's
   * log: the prog, mode, temp and size keys each differ at a known character.
   */
  lemma LogPathsDistinct(c1: Combo, c2: Combo)
    requires ValidCombo(c1) && ValidCombo(c2) && c1 != c2
    ensures LogPath(c1) != LogPath(c2)
  {
    var l1, l2 := LogPath(c1), LogPath(c2);
    if c1.p != c2.p {
      assert l1[10] == Progs[c1.p][0] && l2[10] == Progs[c2.p][0];
    } else if c1.m != c2.m {
      var i := 10 + |Progs[c1.p]| + 1 + 3;
      assert l1[i] == ModeKeys[c1.m][3] && l2[i] == ModeKeys[c2.m][3];
    } else if c1.t != c2.t {
      var i := 10 + |Progs[c1.p]| + 1 + 11 + 1;
      assert l1[i] == TempKeys[c1.t][0] && l2[i] == TempKeys[c2.t][0];
    } else {
      var i := 10 + |Progs[c1.p]| + 1 + 11 + 1 + |TempKeys[c1.t]| + 1 + 1;
      assert l1[i] == SizeKeys[c1.s][1] && l2[i] == SizeKeys[c2.s][1];
    }
  }

  /**
   * Every run of the plan fits the size_t arithmetic of __do_alloc, and the
   * largest buffer any run maps is 25MB * 100 bytes (noreuse at 25MB); the
   * 200MB runs stay at 200MB * 10 because of the reps = 10 override.
   */
  lemma PlanBuffersBounded(c: Combo)
    requires ValidCombo(c)
    ensures var cfg := Config(ModeNamed(ModeKeys[c.m]), TempNamed(TempKeys[c.t]), SizeBytes[c.s], ComboReps(c));
      NoSizeWrap(cfg) && BufferLength(cfg) <= 25 * Mb * 100
  {
  }
}
