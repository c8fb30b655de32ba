/**
 * auto_cpufreq/battery_scripts/battery.py: choosing the vendor battery
 * backend from the loaded kernel modules, and listing the current clock
 * frequency of each CPU core.
 *
 * The `lsmod` output, the `glob` result and the contents of the
 * `scaling_cur_freq` files are inputs.  The vendor handlers themselves are
 * not part of this model: choosing one is represented by a `Dispatch` value
 * that names it.
 */
module Battery {
  import opened Wrappers
  import opened Text
  import opened LexOrder
  import opened PosixPath

  // ---------------------------------------------------------------------
  // Kernel module check and backend dispatch
  // ---------------------------------------------------------------------

  /** The vendor battery-threshold interfaces, one per kernel module. */
  datatype Backend = IdeapadAcpi | IdeapadLaptop | ThinkpadAcpi

  function ModuleName(b: Backend): string {
    match b
    case IdeapadAcpi => "ideapad_acpi"
    case IdeapadLaptop => "ideapad_laptop"
    case ThinkpadAcpi => "thinkpad_acpi"
  }

  /** Position of a backend in the fixed checking order (0 is checked first). */
  function Rank(b: Backend): nat {
    match b
    case IdeapadAcpi => 0
    case IdeapadLaptop => 1
    case ThinkpadAcpi => 2
  }

  /**
   * `is_module_loaded(name)`: `name in lsmod_stdout`, a plain substring test
   * on the whole output.  `lsmod` is None when running the command raised,
   * in which case the answer is False.
   */
  function IsModuleLoaded(lsmod: Option<string>, name: string): (loaded: bool)
    ensures loaded <==> lsmod.Some? && Occurs(name, lsmod.value)
  {
    match lsmod
    case None => false
    case Some(out) =>
      ContainsIffOccurs(out, name);
      Contains(out, name)
  }

  ghost predicate Loaded(lsmod: Option<string>, b: Backend) {
    lsmod.Some? && Occurs(ModuleName(b), lsmod.value)
  }

  /** `b` is loaded and no backend checked before it is. */
  ghost predicate FirstLoaded(lsmod: Option<string>, b: Backend) {
    Loaded(lsmod, b) && forall c :: Rank(c) < Rank(b) ==> !Loaded(lsmod, c)
  }

  ghost predicate NoneLoaded(lsmod: Option<string>) {
    forall b :: !Loaded(lsmod, b)
  }

  /** The two operations a vendor backend offers. */
  datatype Operation = PrintThresholds | Setup

  /** What one call of the dispatcher does: run one vendor handler, or only log a warning. */
  datatype Dispatch = Handler(backend: Backend, op: Operation) | Warning(message: string)

  const NoModuleForRead := "No supported battery management module found."
  const NoModuleForSetup := "No supported battery module found. Setup skipped."

  /** `get_battery_thresholds()`. */
  function GetBatteryThresholds(lsmod: Option<string>): (d: Dispatch)
    ensures d.Handler? ==> d.op == PrintThresholds && FirstLoaded(lsmod, d.backend)
    ensures d.Warning? <==> NoneLoaded(lsmod)
    ensures d.Warning? ==> d.message == NoModuleForRead
  {
    if IsModuleLoaded(lsmod, "ideapad_acpi") then Handler(IdeapadAcpi, PrintThresholds)
    else if IsModuleLoaded(lsmod, "ideapad_laptop") then Handler(IdeapadLaptop, PrintThresholds)
    else if IsModuleLoaded(lsmod, "thinkpad_acpi") then Handler(ThinkpadAcpi, PrintThresholds)
    else Warning(NoModuleForRead)
  }

  /** `setup_battery_charging()`. */
  function SetupBatteryCharging(lsmod: Option<string>): (d: Dispatch)
    ensures d.Handler? ==> d.op == Setup && FirstLoaded(lsmod, d.backend)
    ensures d.Warning? <==> NoneLoaded(lsmod)
    ensures d.Warning? ==> d.message == NoModuleForSetup
  {
    if IsModuleLoaded(lsmod, "ideapad_acpi") then Handler(IdeapadAcpi, Setup)
    else if IsModuleLoaded(lsmod, "ideapad_laptop") then Handler(IdeapadLaptop, Setup)
    else if IsModuleLoaded(lsmod, "thinkpad_acpi") then Handler(ThinkpadAcpi, Setup)
    else Warning(NoModuleForSetup)
  }

  /** At most one backend is first in the checking order among those loaded. */
  lemma FirstLoadedUnique(lsmod: Option<string>, b: Backend, c: Backend)
    requires FirstLoaded(lsmod, b) && FirstLoaded(lsmod, c)
    ensures b == c
  {
  }

  /** The read path and the setup path pick the same backend for the same module list. */
  lemma SameBackendForReadAndSetup(lsmod: Option<string>)
    ensures GetBatteryThresholds(lsmod).Handler? <==> SetupBatteryCharging(lsmod).Handler?
    ensures GetBatteryThresholds(lsmod).Handler? ==>
              GetBatteryThresholds(lsmod).backend == SetupBatteryCharging(lsmod).backend
  {
  }

  /** Whenever `ideapad_acpi` is loaded it is chosen, whatever else is loaded. */
  lemma IdeapadAcpiTakesPriority(lsmod: Option<string>)
    requires Loaded(lsmod, IdeapadAcpi)
    ensures GetBatteryThresholds(lsmod) == Handler(IdeapadAcpi, PrintThresholds)
    ensures SetupBatteryCharging(lsmod) == Handler(IdeapadAcpi, Setup)
  {
  }

  // ---------------------------------------------------------------------
  // CPU frequency listing
  // ---------------------------------------------------------------------

  /** The directory that the glob pattern `cpu[0-9]*` is matched in. */
  const CpuRoot := "/sys/devices/system/cpu"

  /** The frequency file of the core directory `cpu`, as the glob returns it. */
  function FreqPath(cpu: string): string {
    CpuRoot + "/" + cpu + "/" + "cpufreq" + "/" + "scaling_cur_freq"
  }

  /** Paths of the shape the glob returns: a core directory under CpuRoot, then `cpufreq/scaling_cur_freq`. */
  ghost predicate IsFreqPath(p: string) {
    exists cpu :: cpu != [] && NoSep(cpu) && p == FreqPath(cpu)
  }

  /** `freq_khz // 1000`: whole megahertz, rounded down. */
  function KhzToMhz(khz: int): (mhz: int)
    ensures mhz * 1000 <= khz < mhz * 1000 + 1000
  {
    khz / 1000
  }

  /** The label as written in the source: `os.path.basename(os.path.dirname(path))`. */
  function CoreLabelAsWritten(path: string): (name: string)
    ensures NoSep(name)
  {
    Basename(Dirname(path))
  }

  /** The label as intended: the name of the directory that holds `cpufreq/`. */
  function CoreLabel(path: string): (name: string)
    ensures NoSep(name)
  {
    Basename(Dirname(Dirname(path)))
  }

  lemma FreqPathSplits(cpu: string)
    requires cpu != [] && NoSep(cpu)
    ensures Dirname(FreqPath(cpu)) == CpuRoot + "/" + cpu + "/" + "cpufreq"
    ensures Dirname(CpuRoot + "/" + cpu + "/" + "cpufreq") == CpuRoot + "/" + cpu
  {
    var core := CpuRoot + "/" + cpu;
    var leaf := "scaling_cur_freq";
    assert NoSep(leaf) by {
      forall k | 0 <= k < |leaf| ensures leaf[k] != '/' { }
    }
    assert NoSep("cpufreq");
    var dir := core + "/" + "cpufreq";
    assert dir[|dir| - 1] == 'q';
    SplitJoin(dir, leaf);
    assert core[|core| - 1] == cpu[|cpu| - 1];
    SplitJoin(core, "cpufreq");
  }

  /** The intended label of every glob match is its core directory, e.g. `cpu2`. */
  lemma CoreLabelOfFreqPath(cpu: string)
    requires cpu != [] && NoSep(cpu)
    ensures CoreLabel(FreqPath(cpu)) == cpu
  {
    FreqPathSplits(cpu);
    SplitJoin(CpuRoot, cpu);
  }

  /** As written, every glob match is labelled `cpufreq`, whichever core it belongs to. */
  lemma AsWrittenLabelIsCpufreq(cpu: string)
    requires cpu != [] && NoSep(cpu)
    ensures CoreLabelAsWritten(FreqPath(cpu)) == "cpufreq"
  {
    FreqPathSplits(cpu);
    var core := CpuRoot + "/" + cpu;
    assert core[|core| - 1] == cpu[|cpu| - 1];
    assert NoSep("cpufreq");
    SplitJoin(core, "cpufreq");
  }

  /** Frequency paths compare as their core directory names do at the first place those differ. */
  lemma FreqPathBelow(a: string, b: string, k: nat)
    requires k < |a| && k < |b| && a[..k] == b[..k] && a[k] < b[k]
    ensures Below(FreqPath(a), FreqPath(b)) && !Below(FreqPath(b), FreqPath(a))
  {
    var pa, pb := FreqPath(a), FreqPath(b);
    var n := |CpuRoot| + 1;
    assert pa[n + k] == a[k] && pb[n + k] == b[k];
    assert pa[..n + k] == CpuRoot + "/" + a[..k];
    assert pb[..n + k] == CpuRoot + "/" + b[..k];
    BelowAtFirstDifference(pa, pb, n + k);
  }

  /** Sorting two strings puts the lower one first. */
  lemma SortTwo(a: string, b: string)
    requires Below(b, a) && !Below(a, b)
    ensures SortPaths([a, b]) == [b, a]
  {
  }

  /** Lexical, not numeric: `cpu10` is listed before `cpu2`. */
  lemma LexicalCoreOrder()
    ensures SortPaths([FreqPath("cpu2"), FreqPath("cpu10")]) == [FreqPath("cpu10"), FreqPath("cpu2")]
  {
    var c10, c2 := "cpu10", "cpu2";
    assert c10[..3] == c2[..3] && c10[3] < c2[3];
    FreqPathBelow(c10, c2, 3);
    SortTwo(FreqPath(c2), FreqPath(c10));
  }

  /** One printed line `"<cpu>: <mhz> MHz"`. */
  datatype CoreFrequency = CoreFrequency(cpu: string, mhz: int)

  /** What `print_cpu_frequencies()` reports. */
  datatype Report =
    | Unavailable                          // no frequency file: warning and early return
    | Frequencies(lines: seq<CoreFrequency>)

  /**
   * The paths of `ps`, in order, whose file could be read as an integer.
   * `khz` maps a path to its integer contents; a path it lacks is one whose
   * read or `int()` parse raised.
   */
  function Readable(ps: seq<string>, khz: map<string, int>): (r: seq<string>)
    ensures |r| <= |ps|
    ensures forall i :: 0 <= i < |r| ==> r[i] in khz
  {
    if ps == [] then []
    else
      var init, last := Readable(ps[..|ps| - 1], khz), ps[|ps| - 1];
      if last in khz then init + [last] else init
  }

  /** Each readable path is kept as often as `ps` holds it; every other path is dropped. */
  lemma {:induction false} ReadableCounts(ps: seq<string>, khz: map<string, int>)
    ensures forall p :: multiset(Readable(ps, khz))[p] == if p in khz then multiset(ps)[p] else 0
  {
    if ps != [] {
      ReadableCounts(ps[..|ps| - 1], khz);
      assert ps == ps[..|ps| - 1] + [ps[|ps| - 1]];
    }
  }

  /** The readable paths are those of `ps` that `khz` has. */
  lemma ReadableMembers(ps: seq<string>, khz: map<string, int>)
    ensures forall p :: p in Readable(ps, khz) <==> p in ps && p in khz
  {
    ReadableCounts(ps, khz);
    forall p ensures p in Readable(ps, khz) <==> p in ps && p in khz {
      assert p in Readable(ps, khz) <==> p in multiset(Readable(ps, khz));
      assert p in ps <==> p in multiset(ps);
    }
  }

  /** Skipping paths keeps the remaining ones in order. */
  lemma {:induction false} ReadableSorted(ps: seq<string>, khz: map<string, int>)
    requires Sorted(ps)
    ensures Sorted(Readable(ps, khz))
  {
    if ps != [] {
      var front, last := ps[..|ps| - 1], ps[|ps| - 1];
      ReadableSorted(front, khz);
      ReadableMembers(front, khz);
      var init := Readable(front, khz);
      forall i | 0 <= i < |init| ensures Below(init[i], last) {
        assert init[i] in front;
        var k :| 0 <= k < |front| && front[k] == init[i];
      }
    }
  }

  /** Extending the scanned prefix by one path adds that path exactly when it is readable. */
  lemma ReadableStep(ps: seq<string>, i: nat, khz: map<string, int>)
    requires i < |ps|
    ensures Readable(ps[..i + 1], khz) == Readable(ps[..i], khz) + (if ps[i] in khz then [ps[i]] else [])
  {
    assert ps[..i + 1][..i] == ps[..i];
  }

  /** The line printed for a readable path, labelled by `labelOf`. */
  function Reading(path: string, khz: map<string, int>, labelOf: string -> string): (line: CoreFrequency)
    requires path in khz
    ensures line.cpu == labelOf(path)
    ensures line.mhz * 1000 <= khz[path] < line.mhz * 1000 + 1000
  {
    CoreFrequency(labelOf(path), KhzToMhz(khz[path]))
  }

  /** The lines reported for the readable paths `rs`, one each, in order. */
  ghost predicate ReportsIn(lines: seq<CoreFrequency>, rs: seq<string>, khz: map<string, int>, labelOf: string -> string) {
    |lines| == |rs| && forall i :: 0 <= i < |rs| ==> rs[i] in khz && lines[i] == Reading(rs[i], khz, labelOf)
  }

  lemma ReportsInSnoc(lines: seq<CoreFrequency>, rs: seq<string>, p: string, khz: map<string, int>, labelOf: string -> string)
    requires ReportsIn(lines, rs, khz, labelOf) && p in khz
    ensures ReportsIn(lines + [Reading(p, khz, labelOf)], rs + [p], khz, labelOf)
  {
  }

  /**
   * `print_cpu_frequencies()`: `paths` is the glob result and `khz` the
   * integer contents of each file that could be read.  The lines come in
   * Python's string order of the paths, one per readable path; unreadable
   * paths are skipped.  `labelOf` names the core of a path: the source uses
   * CoreLabelAsWritten, the intended behaviour is CoreLabel.
   */
  method PrintCpuFrequencies(paths: seq<string>, khz: map<string, int>, labelOf: string -> string)
    returns (report: Report)
    ensures report.Unavailable? <==> paths == []
    ensures report.Frequencies? ==> ReportsIn(report.lines, Readable(SortPaths(paths), khz), khz, labelOf)
  {
    if paths == [] {
      return Unavailable;
    }
    var ordered := SortPaths(paths);
    var lines: seq<CoreFrequency> := [];
    ghost var shown: seq<string> := [];
    for i := 0 to |ordered|
      invariant shown == Readable(ordered[..i], khz)
      invariant ReportsIn(lines, shown, khz, labelOf)
    {
      var path := ordered[i];
      ReadableStep(ordered, i, khz);
      if path in khz {
        ReportsInSnoc(lines, shown, path, khz, labelOf);
        lines := lines + [Reading(path, khz, labelOf)];
        shown := shown + [path];
      }
    }
    assert ordered[..|ordered|] == ordered;
    return Frequencies(lines);
  }

  /**
   * The listing holds exactly the readable glob matches, in sorted order,
   * each as often as the glob returned it: once, as the glob has no repeats.
   */
  lemma ListedPathsAreTheReadableOnes(paths: seq<string>, khz: map<string, int>)
    ensures Sorted(Readable(SortPaths(paths), khz))
    ensures forall p :: multiset(Readable(SortPaths(paths), khz))[p] == if p in khz then multiset(paths)[p] else 0
    ensures forall p :: p in Readable(SortPaths(paths), khz) <==> p in paths && p in khz
  {
    var sorted := SortPaths(paths);
    ReadableSorted(sorted, khz);
    ReadableCounts(sorted, khz);
    ReadableMembers(sorted, khz);
    assert forall p :: p in sorted <==> p in multiset(sorted);
    assert forall p :: p in paths <==> p in multiset(paths);
  }

  /** As written, any frequency path is labelled `cpufreq`. */
  lemma AsWrittenPathLabel(p: string)
    requires IsFreqPath(p)
    ensures CoreLabelAsWritten(p) == "cpufreq"
  {
    var cpu :| cpu != [] && NoSep(cpu) && p == FreqPath(cpu);
    AsWrittenLabelIsCpufreq(cpu);
  }

  /** With the intended label, a frequency path is the one of the core it names. */
  lemma PathOfCoreLabel(p: string)
    requires IsFreqPath(p)
    ensures FreqPath(CoreLabel(p)) == p
  {
    var cpu :| cpu != [] && NoSep(cpu) && p == FreqPath(cpu);
    CoreLabelOfFreqPath(cpu);
  }

  /** As written, a listing of the glob matches labels every line `cpufreq`. */
  lemma AsWrittenListingSaysCpufreq(paths: seq<string>, khz: map<string, int>, lines: seq<CoreFrequency>)
    requires forall p :: p in paths ==> IsFreqPath(p)
    requires ReportsIn(lines, Readable(SortPaths(paths), khz), khz, CoreLabelAsWritten)
    ensures forall i :: 0 <= i < |lines| ==> lines[i].cpu == "cpufreq"
  {
    var rs := Readable(SortPaths(paths), khz);
    ListedPathsAreTheReadableOnes(paths, khz);
    forall i | 0 <= i < |lines| ensures lines[i].cpu == "cpufreq" {
      assert rs[i] in rs;
      AsWrittenPathLabel(rs[i]);
    }
  }

  /** With the intended label, every line names a core whose frequency file the glob found. */
  lemma ListingNamesGlobbedCores(paths: seq<string>, khz: map<string, int>, lines: seq<CoreFrequency>)
    requires forall p :: p in paths ==> IsFreqPath(p)
    requires ReportsIn(lines, Readable(SortPaths(paths), khz), khz, CoreLabel)
    ensures forall i :: 0 <= i < |lines| ==> FreqPath(lines[i].cpu) in paths && FreqPath(lines[i].cpu) in khz
  {
    var rs := Readable(SortPaths(paths), khz);
    ListedPathsAreTheReadableOnes(paths, khz);
    forall i | 0 <= i < |lines| ensures FreqPath(lines[i].cpu) in paths && FreqPath(lines[i].cpu) in khz {
      assert rs[i] in rs;
      PathOfCoreLabel(rs[i]);
    }
  }
}
