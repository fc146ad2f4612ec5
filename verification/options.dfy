/**
 * Command-line configuration of the two pair benchmarks (shmem.c and cma.c).
 *
 * Both programs keep mode, temp, datasize and reps in globals initialised to
 * intra-socket, hot, 25 MiB and 100, then run a getopt loop whose switch
 * overwrites one global per option and prints help and exits 0 on `-h` and on
 * anything it has no case for. The switch is textually the same in both files;
 * only the getopt option strings differ ("iItTs:r:h" and "iItTpPs:r:h").
 *
 * The model splits this into getopt itself (GetOpt, a model of the libc
 * routine), the switch loop (ParseOptions) and a declarative statement of what
 * the loop computes (Expected: help if any option has no case, otherwise the
 * last occurrence of each setting wins).
 */
module Options {

  /** INTRAMODE (1) and INTERMODE (0). */
  datatype Mode = Intra | Inter

  /** HOT (0): one buffer reused; COLD (1): a fresh slice per repetition. */
  datatype Temp = Hot | Cold

  datatype Config = Config(mode: Mode, temp: Temp, datasize: nat, reps: nat)

  /** DATA_SIZE, 25 MiB. */
  const DataSize: nat := 25 * 1024 * 1024
  /** MAX_REPS. */
  const MaxReps: nat := 100
  /** The globals before any option is read. */
  const Default: Config := Config(Intra, Hot, DataSize, MaxReps)

  /** LONG_MAX on an LP64 target: where strtol saturates. */
  const LongMax: nat := 0x7fff_ffff_ffff_ffff

  /** One value returned by getopt: the option character and its optarg ("" when it takes none). */
  datatype Opt = Opt(flag: char, arg: string)

  /** The outcome of the option loop: run with a configuration, or print help and exit 0. */
  datatype Parsed = Run(config: Config) | Help

  // ---------------------------------------------------------------------------
  // strtol(optarg, &tmp, 10)
  // ---------------------------------------------------------------------------

  predicate IsSpace(c: char) {
    c == ' ' || c == '\t' || c == '\n' || c == '\r' || c == '\U{0B}' || c == '\U{0C}'
  }

  predicate IsDigit(c: char) { '0' <= c <= '9' }

  function DigitValue(c: char): (v: nat)
    requires IsDigit(c)
    ensures v < 10
  {
    (c as int) - ('0' as int)
  }

  /** The input after its leading white space. */
  function SkipSpace(s: string): (t: string)
    ensures |t| <= |s| && t == s[|s| - |t|..]
    ensures forall i :: 0 <= i < |s| - |t| ==> IsSpace(s[i])
    ensures t == [] || !IsSpace(t[0])
  {
    if s != [] && IsSpace(s[0]) then SkipSpace(s[1..]) else s
  }

  /** The longest prefix made of decimal digits. */
  function LeadingDigits(s: string): (d: string)
    ensures |d| <= |s| && d == s[..|d|]
    ensures forall i :: 0 <= i < |d| ==> IsDigit(d[i])
    ensures |d| == |s| || !IsDigit(s[|d|])
  {
    if s != [] && IsDigit(s[0]) then [s[0]] + LeadingDigits(s[1..]) else []
  }

  predicate AllDigits(d: string) {
    forall i :: 0 <= i < |d| ==> IsDigit(d[i])
  }

  /** The number a string of decimal digits denotes, most significant first. */
  function DecimalValue(d: string): nat
    requires AllDigits(d)
  {
    if d == [] then 0 else 10 * DecimalValue(d[..|d| - 1]) + DigitValue(d[|d| - 1])
  }

  /** An optarg that strtol would read as a negative number. */
  predicate Negative(s: string) {
    var t := SkipSpace(s);
    t != [] && t[0] == '-'
  }

  /**
   * strtol with base 10 on a non-negative numeral: leading white space, an
   * optional '+', then as many digits as there are; no digits reads as 0 and a
   * value above LONG_MAX saturates.
   */
  function Strtol(s: string): (v: nat)
    requires !Negative(s)
    ensures v <= LongMax
    ensures AllDigits(s) && DecimalValue(s) <= LongMax ==> v == DecimalValue(s)
  {
    var t := SkipSpace(s);
    var u := if t != [] && t[0] == '+' then t[1..] else t;
    var n := DecimalValue(LeadingDigits(u));
    assert AllDigits(s) ==> t == s && u == s && LeadingDigits(u) == s by {
      if AllDigits(s) {
        assert s == [] || !IsSpace(s[0]);
      }
    }
    if n <= LongMax then n else LongMax
  }

  // ---------------------------------------------------------------------------
  // getopt(argc, argv, optstring)
  // ---------------------------------------------------------------------------

  /** An option string: the option letters, and those among them followed by ':'. */
  datatype OptString = OptString(letters: set<char>, withArg: set<char>)

  /** "iItTs:r:h" (shmem.c). */
  const ShmemOptString: OptString := OptString({'i', 'I', 't', 'T', 's', 'r', 'h'}, {'s', 'r'})
  /** "iItTpPs:r:h" (cma.c). */
  const CmaOptString: OptString := OptString({'i', 'I', 't', 'T', 'p', 'P', 's', 'r', 'h'}, {'s', 'r'})

  /**
   * The values successive getopt calls return for the words after argv[0]:
   * words starting with '-' are option clusters, "--" ends the options, other
   * words are set aside (GNU permutation); an unknown letter or a missing
   * argument yields '?'.
   */
  function GetOpt(os: OptString, args: seq<string>): seq<Opt>
    decreases |args|, 0, 0
  {
    if args == [] || args[0] == "--" then []
    else if |args[0]| >= 2 && args[0][0] == '-' then Cluster(os, args[0][1..], args[1..])
    else GetOpt(os, args[1..])
  }

  /** The options of one cluster `-xyz`, followed by those of the remaining words. */
  function Cluster(os: OptString, letters: string, rest: seq<string>): seq<Opt>
    requires letters != []
    decreases |rest|, 1, |letters|
  {
    var c := letters[0];
    if c in os.letters && c in os.withArg then
      if |letters| > 1 then [Opt(c, letters[1..])] + GetOpt(os, rest)
      else if rest != [] then [Opt(c, rest[0])] + GetOpt(os, rest[1..])
      else [Opt('?', "")]
    else
      var o := if c in os.letters then Opt(c, "") else Opt('?', "");
      if |letters| > 1 then [o] + Cluster(os, letters[1..], rest) else [o] + GetOpt(os, rest)
  }

  // ---------------------------------------------------------------------------
  // The switch
  // ---------------------------------------------------------------------------

  /** The option characters the switch has a setting case for; everything else prints help. */
  const SettingFlags: set<char> := {'i', 'I', 't', 'T', 's', 'r'}

  /** strtol is only ever applied to non-negative numerals (no size_t wrap-around is modelled). */
  predicate NoNegativeArgs(opts: seq<Opt>) {
    forall k :: 0 <= k < |opts| && (opts[k].flag == 's' || opts[k].flag == 'r') ==> !Negative(opts[k].arg)
  }

  /** The index of the last option whose character is in `flags`, or -1. */
  function LastIndex(opts: seq<Opt>, flags: set<char>): (r: int)
    ensures -1 <= r < |opts|
    ensures r == -1 ==> forall k :: 0 <= k < |opts| ==> opts[k].flag !in flags
    ensures r >= 0 ==> opts[r].flag in flags && forall k :: r < k < |opts| ==> opts[k].flag !in flags
  {
    if opts == [] then -1
    else if opts[|opts| - 1].flag in flags then |opts| - 1
    else LastIndex(opts[..|opts| - 1], flags)
  }

  /** The settings after all options, each decided by its last occurrence. */
  function ExpectedConfig(opts: seq<Opt>): Config
    requires NoNegativeArgs(opts)
  {
    var m := LastIndex(opts, {'i', 'I'});
    var t := LastIndex(opts, {'t', 'T'});
    var s := LastIndex(opts, {'s'});
    var r := LastIndex(opts, {'r'});
    Config(
      if m >= 0 && opts[m].flag == 'I' then Inter else Intra,
      if t >= 0 && opts[t].flag == 't' then Cold else Hot,
      if s >= 0 then Strtol(opts[s].arg) else DataSize,
      if r >= 0 then Strtol(opts[r].arg) else MaxReps)
  }

  predicate HasHelpOption(opts: seq<Opt>) {
    exists k :: 0 <= k < |opts| && opts[k].flag !in SettingFlags
  }

  /** What the option loop decides: help when any option has no setting case, else the last-wins settings. */
  function Expected(opts: seq<Opt>): Parsed
    requires NoNegativeArgs(opts)
  {
    if HasHelpOption(opts) then Help else Run(ExpectedConfig(opts))
  }

  /** Appending one setting option changes exactly the field it sets. */
  lemma {:induction false} ExpectedConfigStep(opts: seq<Opt>, o: Opt)
    requires NoNegativeArgs(opts + [o]) && o.flag in SettingFlags
    ensures NoNegativeArgs(opts)
    ensures var c := ExpectedConfig(opts);
      ExpectedConfig(opts + [o]) ==
        match o.flag
        case 'i' => c.(mode := Intra)
        case 'I' => c.(mode := Inter)
        case 't' => c.(temp := Cold)
        case 'T' => c.(temp := Hot)
        case 's' => c.(datasize := Strtol(o.arg))
        case _ => c.(reps := Strtol(o.arg))
  {
    var s := opts + [o];
    assert s[..|s| - 1] == opts;
    assert s[|s| - 1] == o;
    forall k | 0 <= k < |opts| && (opts[k].flag == 's' || opts[k].flag == 'r')
      ensures !Negative(opts[k].arg)
    {
      assert s[k] == opts[k];
    }
    LastIndexAppend(opts, o, {'i', 'I'});
    LastIndexAppend(opts, o, {'t', 'T'});
    LastIndexAppend(opts, o, {'s'});
    LastIndexAppend(opts, o, {'r'});
  }

  /** Appending an option moves the last index of its flags to the end and leaves the others alone. */
  lemma LastIndexAppend(opts: seq<Opt>, o: Opt, flags: set<char>)
    ensures LastIndex(opts + [o], flags) == if o.flag in flags then |opts| else LastIndex(opts, flags)
  {
    var s := opts + [o];
    assert s[..|s| - 1] == opts;
  }

  /** Which setting a setting option writes: 0 mode, 1 temp, 2 datasize, 3 reps. */
  function SettingOf(flag: char): nat {
    if flag == 'i' || flag == 'I' then 0 else if flag == 't' || flag == 'T' then 1 else if flag == 's' then 2 else 3
  }

  /** Of two consecutive options writing the same setting, the first has no effect: the last one wins. */
  lemma {:induction false} LaterOptionOverrides(opts: seq<Opt>, o1: Opt, o2: Opt)
    requires o1.flag in SettingFlags && o2.flag in SettingFlags && SettingOf(o1.flag) == SettingOf(o2.flag)
    requires NoNegativeArgs(opts + [o1, o2])
    ensures NoNegativeArgs(opts + [o2])
    ensures ExpectedConfig(opts + [o1, o2]) == ExpectedConfig(opts + [o2])
  {
    assert opts + [o1, o2] == (opts + [o1]) + [o2];
    ExpectedConfigStep(opts + [o1], o2);
    ExpectedConfigStep(opts, o1);
    forall k | 0 <= k < |opts + [o2]| && ((opts + [o2])[k].flag == 's' || (opts + [o2])[k].flag == 'r')
      ensures !Negative((opts + [o2])[k].arg)
    {
      if k == |opts| {
        assert (opts + [o1, o2])[k + 1] == o2;
      } else {
        assert (opts + [o1, o2])[k] == opts[k];
      }
    }
    ExpectedConfigStep(opts, o2);
  }

  /**
   * cma.c lists p and P in its option string but has no case for them, so
   * `-p` reaches the default branch and prints help; shmem.c's getopt does not
   * know p at all and returns '?', which prints help too.
   */
  lemma PFlagPrintsHelp()
    ensures GetOpt(CmaOptString, ["-p"]) == [Opt('p', "")] && Expected(GetOpt(CmaOptString, ["-p"])) == Help
    ensures GetOpt(ShmemOptString, ["-p"]) == [Opt('?', "")] && Expected(GetOpt(ShmemOptString, ["-p"])) == Help
  {
    assert GetOpt(CmaOptString, ["-p"]) == Cluster(CmaOptString, "p", []) == [Opt('p', "")] + GetOpt(CmaOptString, []);
    assert GetOpt(ShmemOptString, ["-p"]) == Cluster(ShmemOptString, "p", []) == [Opt('?', "")] + GetOpt(ShmemOptString, []);
    assert [Opt('p', "")][0].flag !in SettingFlags;
    assert [Opt('?', "")][0].flag !in SettingFlags;
  }

  /** A prefix of options with non-negative -s and -r arguments has them too. */
  lemma NoNegativePrefix(opts: seq<Opt>, n: nat)
    requires NoNegativeArgs(opts) && n <= |opts|
    ensures NoNegativeArgs(opts[..n])
  {
    forall k | 0 <= k < n && (opts[..n][k].flag == 's' || opts[..n][k].flag == 'r')
      ensures !Negative(opts[..n][k].arg)
    {
      assert opts[..n][k] == opts[k];
    }
  }

  /**
   * The getopt loop with its switch (shmem.c:178-193, cma.c:172-187): it
   * overwrites one setting per option and stops with help at the first
   * option that has no setting case.
   */
  method ParseOptions(opts: seq<Opt>) returns (p: Parsed)
    requires NoNegativeArgs(opts)
    ensures p == Expected(opts)
  {
    var cfg := Default;
    var k := 0;
    while k < |opts|
      invariant 0 <= k <= |opts|
      invariant NoNegativeArgs(opts[..k])
      invariant !HasHelpOption(opts[..k])
      invariant cfg == ExpectedConfig(opts[..k])
    {
      var o := opts[k];
      assert opts[..k + 1] == opts[..k] + [o];
      if o.flag !in SettingFlags {
        assert opts[k].flag !in SettingFlags;
        return Help;
      }
      NoNegativePrefix(opts, k + 1);
      ExpectedConfigStep(opts[..k], o);
      match o.flag {
        case 'i' => cfg := cfg.(mode := Intra);
        case 'I' => cfg := cfg.(mode := Inter);
        case 't' => cfg := cfg.(temp := Cold);
        case 'T' => cfg := cfg.(temp := Hot);
        case 's' => cfg := cfg.(datasize := Strtol(o.arg));
        case _ => cfg := cfg.(reps := Strtol(o.arg));
      }
      k := k + 1;
    }
    assert opts[..k] == opts;
    p := Run(cfg);
  }
}
