/** The qsub wrapper in pbs-icl/pbs-submit.py: the walltime text built from a
    runtime in minutes, the memory request rounded up to whole gigabytes,
    and the argument vector handed to `qsub`. */
module PbsSubmit {
  import opened Wrappers
  import opened Text

  /** The characters `str(n)` can produce. */
  predicate Numeral(s: string) {
    forall i :: 0 <= i < |s| ==> s[i] == '-' || IsDigit(s[i])
  }

  lemma IntToStringNumeral(n: int)
    ensures Numeral(IntToString(n)) && |IntToString(n)| >= 1
    ensures n >= 0 ==> AllDigits(IntToString(n)) && ParseNat(IntToString(n)) == n
    ensures n < 0 ==> |IntToString(n)| >= 2 && IntToString(n)[0] == '-'
  {
    if n >= 0 {
      ParseNatToString(n);
    }
  }

  /** `f"{n:02}"`: `str(n)`, with zeros put in front of the digits while it
      is shorter than two characters. */
  function Pad2(n: int): (s: string)
    ensures Numeral(s)
    ensures |s| == (if |IntToString(n)| >= 2 then |IntToString(n)| else 2)
    ensures n >= 0 ==> AllDigits(s) && ParseNat(s) == n
    ensures n < 0 ==> s == IntToString(n)
  {
    IntToStringNumeral(n);
    if 0 <= n < 10 then
      ParseNatLeadingZero(NatToString(n));
      "0" + NatToString(n)
    else
      IntToString(n)
  }

  /** A number below 100 takes exactly two characters once padded. */
  lemma Pad2Small(n: nat)
    requires n < 100
    ensures |Pad2(n)| == 2
  {
    if n >= 10 {
      assert NatToString(n) == NatToString(n / 10) + [DigitChar(n % 10)];
    }
  }

  /** Python's `divmod(m, 60)`: the floor quotient and a remainder in
      [0, 60). With a positive divisor, Dafny's `/` and `%` are exactly
      these. */
  function DivMod60(m: int): (r: (int, int))
    ensures r.0 * 60 + r.1 == m && 0 <= r.1 < 60
  {
    (m / 60, m % 60)
  }

  /** `get_runtime_str`: hours, minutes and zero seconds, colon-separated. */
  function RuntimeStr(runtimeMin: int): string {
    var (hours, mins) := DivMod60(runtimeMin);
    Pad2(hours) + ":" + Pad2(mins) + ":00"
  }

  /** Reading `H:MM:00` back as minutes: the hours field is digits and at
      least two characters, the minutes field is two digits below 60. */
  function ParseRuntime(s: string): Option<int> {
    var parts := Split(s, ':');
    if |parts| == 3 && parts[2] == "00" && |parts[0]| >= 2 && AllDigits(parts[0])
       && |parts[1]| == 2 && AllDigits(parts[1]) && ParseNat(parts[1]) < 60
    then Some(ParseNat(parts[0]) * 60 + ParseNat(parts[1]))
    else None
  }

  /** The walltime splits into the padded hours, the two-digit minutes and
      `00`, and the minutes are below 60; hours take as many digits as they
      need, and a negative runtime gives negative hours. */
  lemma RuntimeFields(runtimeMin: int)
    ensures var parts := Split(RuntimeStr(runtimeMin), ':');
      |parts| == 3 && parts[0] == Pad2(runtimeMin / 60) && parts[2] == "00" &&
      |parts[1]| == 2 && AllDigits(parts[1]) && ParseNat(parts[1]) == runtimeMin % 60 < 60
  {
    var (hours, mins) := DivMod60(runtimeMin);
    var parts := [Pad2(hours), Pad2(mins), "00"];
    assert RuntimeStr(runtimeMin) == Join(parts, ':') by {
      assert parts[1..][1..] == ["00"];
      assert Join(parts[1..], ':') == Pad2(mins) + ":" + "00";
    }
    forall i | 0 <= i < 3 ensures ':' !in parts[i] {
      if ':' in parts[i] {
        var j :| 0 <= j < |parts[i]| && parts[i][j] == ':';
      }
    }
    SplitJoin(parts, ':');
    Pad2Small(mins);
  }

  /** For a runtime of zero or more minutes, the walltime reads back as that
      many minutes. */
  lemma RuntimeRoundTrip(runtimeMin: nat)
    ensures ParseRuntime(RuntimeStr(runtimeMin)) == Some(runtimeMin)
  {
    RuntimeFields(runtimeMin);
    ParseRuntimeFields(RuntimeStr(runtimeMin), runtimeMin / 60, runtimeMin % 60);
  }

  /** A text whose fields read as hours and minutes reads back as minutes. */
  lemma ParseRuntimeFields(s: string, h: nat, m: nat)
    requires var parts := Split(s, ':');
      |parts| == 3 && parts[0] == Pad2(h) && parts[2] == "00" &&
      |parts[1]| == 2 && AllDigits(parts[1]) && ParseNat(parts[1]) == m < 60
    ensures ParseRuntime(s) == Some(h * 60 + m)
  {
  }

  /** Different runtimes give different walltimes. */
  lemma RuntimeStrInjective(m: nat, n: nat)
    ensures RuntimeStr(m) == RuntimeStr(n) <==> m == n
  {
    RuntimeRoundTrip(m);
    RuntimeRoundTrip(n);
  }

  /** 90 minutes is `01:30:00`; 6000 minutes needs three hour digits. */
  lemma RuntimeExamples()
    ensures RuntimeStr(90) == "01:30:00"
    ensures RuntimeStr(6000) == "100:00:00"
  {
    assert DivMod60(90) == (1, 30);
    assert NatToString(30) == NatToString(3) + [DigitChar(0)];
    assert DivMod60(6000) == (100, 0);
    assert NatToString(100) == NatToString(10) + [DigitChar(0)];
    assert NatToString(10) == NatToString(1) + [DigitChar(0)];
  }

  /** A negative runtime is not refused: -1 minutes is `-1:59:00`. */
  lemma NegativeRuntime()
    ensures RuntimeStr(-1) == "-1:59:00"
  {
    assert DivMod60(-1) == (-1, 59);
    assert NatToString(59) == NatToString(5) + [DigitChar(9)];
  }

  /** `math.ceil(a / 1000)`, on integers. */
  function CeilThousand(a: int): (q: int)
    ensures (q - 1) * 1000 < a <= q * 1000
  {
    -((-a) / 1000)
  }

  /** `mem_gb = max(1, math.ceil(mem_mb / 1000))`. */
  function MemGb(memMb: int): (g: int)
    ensures g >= 1
    ensures memMb <= 1000 ==> g == 1
    ensures memMb >= 1 ==> (g - 1) * 1000 < memMb <= g * 1000
  {
    var c := CeilThousand(memMb);
    if c < 1 then 1 else c
  }

  /** No smaller whole number of gigabytes (at least one) holds the request. */
  lemma MemGbLeast(memMb: int, g: int)
    requires g >= 1 && memMb <= g * 1000
    ensures MemGb(memMb) <= g
  {
  }

  /** Asking for more memory never asks for fewer gigabytes. */
  lemma MemGbMonotone(a: int, b: int)
    requires a <= b
    ensures MemGb(a) <= MemGb(b)
  {
    if b >= 1 {
      MemGbLeast(a, MemGb(b));
    }
  }

  /** The `-lselect` resource request. */
  function SelectArg(threads: int, memMb: int): string {
    "-lselect=1:ncpus=" + IntToString(threads) + ":mem=" + IntToString(MemGb(memMb)) + "gb"
  }

  /** The argument vector `main` passes to `execvp("qsub", ...)`. */
  function QsubArgs(threads: int, memMb: int, runtimeMin: int, jobScript: string): seq<string> {
    ["qsub", SelectArg(threads, memMb), "-lwalltime=" + RuntimeStr(runtimeMin), jobScript]
  }

  /** A field made of a prefix, a number and a suffix, none holding `:`. */
  lemma NumberField(prefix: string, n: nat, suffix: string)
    requires ':' !in prefix && ':' !in suffix
    ensures var f := prefix + IntToString(n) + suffix;
      ':' !in f && |f| > |prefix| + |suffix| && f[..|prefix|] == prefix &&
      f[|f| - |suffix|..] == suffix && AllDigits(f[|prefix|..|f| - |suffix|]) &&
      ParseNat(f[|prefix|..|f| - |suffix|]) == n
  {
    IntToStringNumeral(n);
    var f := prefix + IntToString(n) + suffix;
    assert f[|prefix|..|f| - |suffix|] == IntToString(n);
  }

  /** Three colon-free fields joined by colons split back into themselves. */
  lemma SplitThree(a: string, b: string, c: string)
    requires ':' !in a && ':' !in b && ':' !in c
    ensures Split(a + ":" + b + ":" + c, ':') == [a, b, c]
  {
    var parts := [a, b, c];
    assert parts[1..][1..] == [c];
    assert Join(parts[1..], ':') == b + ":" + c;
    assert Join(parts, ':') == a + ":" + b + ":" + c;
    SplitJoin(parts, ':');
  }

  /** The resource request reads back as one chunk with the given threads
      and the rounded-up memory. */
  lemma SelectFields(threads: nat, memMb: int)
    ensures var parts := Split(SelectArg(threads, memMb), ':');
      |parts| == 3 && parts[0] == "-lselect=1" &&
      |parts[1]| > 6 && parts[1][..6] == "ncpus=" && AllDigits(parts[1][6..]) &&
      ParseNat(parts[1][6..]) == threads &&
      |parts[2]| > 6 && parts[2][..4] == "mem=" && parts[2][|parts[2]| - 2..] == "gb" &&
      AllDigits(parts[2][4..|parts[2]| - 2]) && ParseNat(parts[2][4..|parts[2]| - 2]) == MemGb(memMb)
  {
    var g := MemGb(memMb);
    SelectText(threads, g);
  }

  lemma SelectText(threads: nat, g: nat)
    ensures var parts := Split("-lselect=1:ncpus=" + IntToString(threads) + ":mem=" + IntToString(g) + "gb", ':');
      |parts| == 3 && parts[0] == "-lselect=1" &&
      |parts[1]| > 6 && parts[1][..6] == "ncpus=" && AllDigits(parts[1][6..]) &&
      ParseNat(parts[1][6..]) == threads &&
      |parts[2]| > 6 && parts[2][..4] == "mem=" && parts[2][|parts[2]| - 2..] == "gb" &&
      AllDigits(parts[2][4..|parts[2]| - 2]) && ParseNat(parts[2][4..|parts[2]| - 2]) == g
  {
    var t, m := IntToString(threads), IntToString(g);
    SelectShape(t, m);
    NumberField("ncpus=", threads, "");
    NumberField("mem=", g, "gb");
    SplitThree("-lselect=1", "ncpus=" + t, "mem=" + m + "gb");
  }

  /** How the resource request is put together from its three fields. */
  lemma SelectShape(t: string, m: string)
    ensures "-lselect=1:ncpus=" + t + ":mem=" + m + "gb" == "-lselect=1" + ":" + ("ncpus=" + t) + ":" + ("mem=" + m + "gb")
    ensures "ncpus=" + t + "" == "ncpus=" + t
    ensures ':' !in "-lselect=1" && ':' !in "ncpus=" && ':' !in "mem=" && ':' !in "gb" && ':' !in ""
    ensures |"ncpus="| == 6 && |"mem="| == 4 && |"gb"| == 2
  {
  }

  /** The argument vector: `qsub`, the resource request, the walltime, and
      the job script; the walltime reads back as the runtime. */
  lemma QsubArgsFields(threads: nat, memMb: int, runtimeMin: nat, jobScript: string)
    ensures var args := QsubArgs(threads, memMb, runtimeMin, jobScript);
      |args| == 4 && args[0] == "qsub" && args[1] == SelectArg(threads, memMb) &&
      |args[2]| > 11 && args[2][..11] == "-lwalltime=" &&
      ParseRuntime(args[2][11..]) == Some(runtimeMin) && args[3] == jobScript
  {
    var w := "-lwalltime=" + RuntimeStr(runtimeMin);
    assert w[11..] == RuntimeStr(runtimeMin);
    RuntimeRoundTrip(runtimeMin);
  }
}
