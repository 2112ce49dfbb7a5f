/** The option builders of options.go: the flags a `CommonFlags` value turns
    into, the small decimal printer they use, and the `TransferOptions`
    builder that accumulates an `RcloneOptions` value. */
module Options {
  import opened Text
  import Rclone

  // -------------------------------------------------------------------------
  // formatInt (options.go:128-139)
  // -------------------------------------------------------------------------

  /** Go's rune(x) conversion of an int: the low 32 bits, read as signed. */
  function Int32Wrap(x: int): (r: int)
    ensures -0x8000_0000 <= r < 0x8000_0000
    ensures 0 <= x < 0x8000_0000 ==> r == x
  {
    var low := x % 0x1_0000_0000;
    if low < 0x8000_0000 then low else low - 0x1_0000_0000
  }

  /** A rune value that names a Unicode scalar value (not negative, not a
      surrogate, at most U+10FFFF). */
  predicate IsScalar(r: int) {
    0 <= r < 0xD800 || 0xE000 <= r <= 0x10FFFF
  }

  /** string(rune(r)): the one-rune string, or U+FFFD for a value that is not
      a scalar value. */
  function RuneString(r: int): (s: string)
    ensures |s| == 1
    ensures IsScalar(r) ==> s[0] as int == r
    ensures !IsScalar(r) ==> s == "\U{FFFD}"
  {
    if IsScalar(r) then [r as char] else "\U{FFFD}"
  }

  /** formatInt: below ten, the one rune at code point i + '0' (a digit for
      0..9, some other rune or U+FFFD for a negative argument); from ten up,
      the decimal numeral built by the divide-by-ten loop. Every argument
      from 0 up is printed as its shortest decimal numeral, which reads back
      as the argument and has no leading zero. */
  method FormatInt(i: int) returns (s: string)
    ensures i < 10 ==> s == RuneString(Int32Wrap(i + '0' as int))
    ensures i >= 0 ==> s == Decimal(i)
  {
    if i < 10 {
      s := RuneString(Int32Wrap(i + '0' as int));
      if i >= 0 {
        assert s == [DigitChar(i)];
      }
    } else {
      var result: string := [];
      var n := i;
      while n > 0
        invariant 0 <= n <= i
        invariant n > 0 ==> Decimal(n) + result == Decimal(i)
        invariant n == 0 ==> result == Decimal(i)
        decreases n
      {
        if n >= 10 {
          AppendAssoc(Decimal(n / 10), [DigitChar(n % 10)], result);
        }
        result := [DigitChar(n % 10)] + result;
        n := n / 10;
      }
      s := result;
    }
  }

  // -------------------------------------------------------------------------
  // CommonFlags.ToFlags (options.go:5-72)
  // -------------------------------------------------------------------------

  /** CommonFlags (options.go:5-29). */
  datatype CommonFlags = CommonFlags(
    transfers: int,
    checkers: int,
    bandwidth: int,
    ignoreChecksum: bool,
    noTraverse: bool,
    progress: bool,
    verbose: bool,
    excludes: seq<string>,
    includes: seq<string>,
    minAge: string,
    maxAge: string)

  /** The setting that asks for nothing at all. */
  const NoFlags := CommonFlags(0, 0, 0, false, false, false, false, [], [], "", "")

  /** A count option: the name and its numeral, only for a positive count. */
  function CountFlag(name: string, n: int): seq<string> {
    if n > 0 then [name, Decimal(n)] else []
  }

  /** The bandwidth limit: "--bwlimit" and the numeral in kBytes/s, only for
      a positive limit. */
  function BandwidthFlag(n: int): seq<string> {
    if n > 0 then ["--bwlimit", Decimal(n) + "k"] else []
  }

  /** A switch: the flag alone, only when set. */
  function SwitchFlag(name: string, on: bool): seq<string> {
    if on then [name] else []
  }

  /** One (name, pattern) pair per pattern, in list order. */
  function PatternFlags(name: string, patterns: seq<string>): (r: seq<string>)
    ensures |r| == 2 * |patterns|
  {
    if patterns == [] then []
    else PatternFlags(name, patterns[..|patterns| - 1]) + [name, patterns[|patterns| - 1]]
  }

  /** A text option: the name and the text, only when the text is not empty. */
  function TextFlag(name: string, value: string): seq<string> {
    if value != "" then [name, value] else []
  }

  /** Everything ToFlags emits, section by section in its fixed order. */
  function Flags(f: CommonFlags): seq<string> {
    CountFlag("--transfers", f.transfers)
    + CountFlag("--checkers", f.checkers)
    + BandwidthFlag(f.bandwidth)
    + SwitchFlag("--ignore-checksum", f.ignoreChecksum)
    + SwitchFlag("--no-traverse", f.noTraverse)
    + SwitchFlag("-P", f.progress)
    + SwitchFlag("-v", f.verbose)
    + PatternFlags("--exclude", f.excludes)
    + PatternFlags("--include", f.includes)
    + TextFlag("--min-age", f.minAge)
    + TextFlag("--max-age", f.maxAge)
  }

  /** CommonFlags.ToFlags: appends each section in turn. */
  method ToFlags(f: CommonFlags) returns (flags: seq<string>)
    ensures flags == Flags(f)
  {
    flags := [];
    flags := AppendCount(flags, "--transfers", f.transfers);
    assert flags == CountFlag("--transfers", f.transfers);
    flags := AppendCount(flags, "--checkers", f.checkers);
    flags := AppendBandwidth(flags, f.bandwidth);
    flags := AppendSwitch(flags, "--ignore-checksum", f.ignoreChecksum);
    flags := AppendSwitch(flags, "--no-traverse", f.noTraverse);
    flags := AppendSwitch(flags, "-P", f.progress);
    flags := AppendSwitch(flags, "-v", f.verbose);
    flags := AppendPatterns(flags, "--exclude", f.excludes);
    flags := AppendPatterns(flags, "--include", f.includes);
    flags := AppendText(flags, "--min-age", f.minAge);
    flags := AppendText(flags, "--max-age", f.maxAge);
  }

  /** A count section of ToFlags: the pair only for a positive count. */
  method AppendCount(flags: seq<string>, name: string, n: int) returns (r: seq<string>)
    ensures r == flags + CountFlag(name, n)
  {
    r := flags;
    if n > 0 {
      var numeral := FormatInt(n);
      r := r + [name, numeral];
    }
  }

  /** The bandwidth section of ToFlags: the limit with its "k" suffix. */
  method AppendBandwidth(flags: seq<string>, n: int) returns (r: seq<string>)
    ensures r == flags + BandwidthFlag(n)
  {
    r := flags;
    if n > 0 {
      var numeral := FormatInt(n);
      r := r + ["--bwlimit", numeral + "k"];
    }
  }

  /** A switch section of ToFlags: the flag only when set. */
  method AppendSwitch(flags: seq<string>, name: string, on: bool) returns (r: seq<string>)
    ensures r == flags + SwitchFlag(name, on)
  {
    r := flags;
    if on {
      r := r + [name];
    }
  }

  /** An age section of ToFlags: the pair only for a non-empty value. */
  method AppendText(flags: seq<string>, name: string, value: string) returns (r: seq<string>)
    ensures r == flags + TextFlag(name, value)
  {
    r := flags;
    if value != "" {
      r := r + [name, value];
    }
  }

  /** One of ToFlags' pattern loops: a pair per pattern after what is there. */
  method AppendPatterns(flags: seq<string>, name: string, patterns: seq<string>) returns (r: seq<string>)
    ensures r == flags + PatternFlags(name, patterns)
  {
    r := flags;
    for k := 0 to |patterns|
      invariant r == flags + PatternFlags(name, patterns[..k])
    {
      assert patterns[..k + 1][..k] == patterns[..k];
      AppendAssoc(flags, PatternFlags(name, patterns[..k]), [name, patterns[k]]);
      r := r + [name, patterns[k]];
    }
    assert patterns[..|patterns|] == patterns;
  }

  /** Pattern k sits at position 2k + 1, right after the flag name. */
  lemma {:induction false} PatternFlagsAt(name: string, patterns: seq<string>, k: nat)
    requires k < |patterns|
    ensures PatternFlags(name, patterns)[2 * k] == name
    ensures PatternFlags(name, patterns)[2 * k + 1] == patterns[k]
  {
    var last := |patterns| - 1;
    if k < last {
      PatternFlagsAt(name, patterns[..last], k);
    }
  }

  /** ToFlags emits nothing exactly when nothing is asked for: no positive
      count, no switch set, no pattern and no age limit. */
  lemma FlagsEmpty(f: CommonFlags)
    ensures Flags(f) == [] <==>
      && f.transfers <= 0 && f.checkers <= 0 && f.bandwidth <= 0
      && !f.ignoreChecksum && !f.noTraverse && !f.progress && !f.verbose
      && f.excludes == [] && f.includes == [] && f.minAge == "" && f.maxAge == ""
  {
    if Flags(f) == [] {
      assert |PatternFlags("--exclude", f.excludes)| == 0;
      assert |PatternFlags("--include", f.includes)| == 0;
    }
  }

  /** With only a bandwidth limit set, ToFlags yields "--bwlimit" and the
      limit in decimal with a "k" suffix, which reads back as the limit. */
  lemma BandwidthOnly(bandwidth: int)
    requires bandwidth > 0
    ensures var r := Flags(NoFlags.(bandwidth := bandwidth));
      |r| == 2 && r[0] == "--bwlimit" && |r[1]| >= 2 && r[1][|r[1]| - 1] == 'k'
      && (forall i :: 0 <= i < |r[1]| - 1 ==> IsDigit(r[1][i]))
      && DecimalValue(r[1][..|r[1]| - 1]) == bandwidth
  {
    var r := Flags(NoFlags.(bandwidth := bandwidth));
    assert r == ["--bwlimit", Decimal(bandwidth) + "k"];
    assert r[1][..|r[1]| - 1] == Decimal(bandwidth);
    DecimalRoundTrip(bandwidth);
  }

  /** With only patterns set, the excludes come first, each after its flag,
      then the includes. */
  lemma PatternsOnly(excludes: seq<string>, includes: seq<string>, k: nat)
    ensures var r := Flags(NoFlags.(excludes := excludes, includes := includes));
      |r| == 2 * |excludes| + 2 * |includes|
      && (k < |excludes| ==> r[2 * k] == "--exclude" && r[2 * k + 1] == excludes[k])
      && (k < |includes| ==> r[2 * |excludes| + 2 * k] == "--include" && r[2 * |excludes| + 2 * k + 1] == includes[k])
  {
    var r := Flags(NoFlags.(excludes := excludes, includes := includes));
    assert r == PatternFlags("--exclude", excludes) + PatternFlags("--include", includes);
    if k < |excludes| {
      PatternFlagsAt("--exclude", excludes, k);
    }
    if k < |includes| {
      PatternFlagsAt("--include", includes, k);
    }
  }

  // -------------------------------------------------------------------------
  // The TransferOptions builder (options.go:74-125)
  // -------------------------------------------------------------------------

  /** TransferOptions: one `RcloneOptions` value that each builder method
      updates in place and hands back for chaining. */
  class TransferOptions {
    var opts: Rclone.RcloneOptions

    /** NewTransferOptions (options.go:80-90): copy, no flags, stats every
        500ms, not a dry run. */
    constructor (source: string, destination: string)
      ensures opts == Rclone.RcloneOptions(Rclone.RcloneCopy, source, destination, [], "500ms", false)
    {
      opts := Rclone.RcloneOptions(Rclone.RcloneCopy, source, destination, [], "500ms", false);
    }

    /** WithCommand: replaces the verb and nothing else. */
    method WithCommand(command: string) returns (t: TransferOptions)
      modifies this
      ensures opts == old(opts).(command := command)
      ensures t == this
    {
      opts := opts.(command := command);
      t := this;
    }

    /** WithFlags: the given flags go after those already there. */
    method WithFlags(flags: seq<string>) returns (t: TransferOptions)
      modifies this
      ensures opts == old(opts).(flags := old(opts).flags + flags)
      ensures t == this
    {
      opts := opts.(flags := opts.flags + flags);
      t := this;
    }

    /** WithCommonFlags: what ToFlags makes of `common` goes after the flags
        already there. */
    method WithCommonFlags(common: CommonFlags) returns (t: TransferOptions)
      modifies this
      ensures opts == old(opts).(flags := old(opts).flags + Flags(common))
      ensures t == this
    {
      var flags := ToFlags(common);
      opts := opts.(flags := opts.flags + flags);
      t := this;
    }

    /** WithStatsInterval: the interval as time.Duration would print it. */
    method WithStatsInterval(interval: string) returns (t: TransferOptions)
      modifies this
      ensures opts == old(opts).(statsInterval := interval)
      ensures t == this
    {
      opts := opts.(statsInterval := interval);
      t := this;
    }

    /** WithDryRun: turns dry-run mode on and nothing else. */
    method WithDryRun() returns (t: TransferOptions)
      modifies this
      ensures opts == old(opts).(dryRun := true)
      ensures t == this
    {
      opts := opts.(dryRun := true);
      t := this;
    }

    /** Build: the options accumulated so far. */
    method Build() returns (o: Rclone.RcloneOptions)
      ensures o == opts
    {
      o := opts;
    }
  }

  /** The builder in use: a fresh builder with common flags and dry-run mode
      turned on yields options whose command line is the default verb and
      interval, "--dry-run", exactly ToFlags' output, then the two paths. */
  method DryRunCommandLine(source: string, destination: string, common: CommonFlags)
    returns (args: seq<string>)
    ensures args == ["copy", "-v", "--stats", "500ms", "--dry-run"] + Flags(common) + [source, destination]
  {
    var b := new TransferOptions(source, destination);
    var _ := b.WithCommonFlags(common);
    var _ := b.WithDryRun();
    var opts := b.Build();
    args := Rclone.BuildArgs(opts);
    assert opts.flags == [] + Flags(common);
  }
}
