# auto-cpufreq battery and profile core, in Dafny

A verified model of the decision logic of three files of auto-cpufreq:

- `auto_cpufreq/profiles.py` — the fixed profile catalog (`PROFILES`), the
  workload classifier `detect_profile()` with its ordered first-match rule
  chain, the module-level `active_profile` it updates, and
  `get_profile_settings()`. Module `Profiles` (profiles.dfy): a pure
  `Classify` function, and a class `PolicyState` that holds `activeProfile`.
- `auto_cpufreq/battery_scripts/battery.py` — the kernel-module test
  `is_module_loaded()`, the priority dispatch to a vendor battery backend in
  `get_battery_thresholds()` and `setup_battery_charging()`, and the CPU
  frequency listing `print_cpu_frequencies()`. Module `Battery`
  (battery.dfy). The listing is a method with a loop over the sorted paths.
- `auto_cpufreq/battery_helper.py` — `set_charge_threshold()` and
  `get_battery_health()`. Module `BatteryHelper` (battery_helper.dfy): a
  class `Sysfs` whose `files` map stands for the battery directory.

Supporting modules model the pieces of Python these files rely on:
`Text` (`str.lower()`, `sub in s`, `str.strip()`, `int(text)`, `str(n)`),
`LexOrder` (Python's string order and `sorted()`), `PosixPath`
(`os.path.dirname`, `os.path.basename`) and `Wrappers` (Option and Result).

The operating system is replaced by plain inputs:
- the process names are a `seq<string>`;
- the `lsmod` output is an `Option<string>`, where None means running the command raised;
- the glob result is a `seq<string>`, with a map from path to the integer kHz in that file;
- the battery directory is a map from path to file contents, plus the fault, if any, that opening a file for writing runs into.

Facts about the code that the model keeps as they are:
- CPU lines are ordered by Python's string order of the paths, not by core
  number, so `cpu10` comes before `cpu2`.
- `get_battery_health()` can raise. Only FileNotFoundError is caught around
  the read of the capacity file, so capacity text that is not an integer
  raises ValueError. The model returns `Failure(ValueError(...))` there.
- The battery status is the raw stripped text of the file, not an enumeration.
- `set_charge_threshold()` writes only the end threshold. It has no range
  check and no start threshold, so none is modelled.

## Model

| member | source | states |
|---|---|---|
| `Profiles.Catalog` | auto_cpufreq/profiles.py:7-36 | exactly five profiles, keyed default, gaming, work, video_editing and battery_saver; gaming and video_editing carry identical settings; default and battery_saver have turbo and GPU boost off |
| `Profiles.LowerAll` | auto_cpufreq/profiles.py:46 | one name per process, in the same order, each the lower-cased process name |
| `Profiles.AnyContains` | auto_cpufreq/profiles.py:48-53 | the `any(k1 in p or k2 in p ...)` scan is true exactly when some name contains one of the two keywords |
| `Profiles.Classify` | auto_cpufreq/profiles.py:46-57 | the detected profile is always a key of the catalog |
| `Profiles.ClassifyRules` | auto_cpufreq/profiles.py:46-57 | first match wins: gaming iff some lower-cased name contains steam or game; video_editing iff not gaming and some name contains blender or davinci; work iff neither earlier rule matches and some name contains code or pycharm; battery_saver iff no substring rule matches and both "chrome" and "battery" are exact lower-cased names; default iff no rule matches |
| `Profiles.GamingWins` | auto_cpufreq/profiles.py:48-49 | a steam or game process yields "gaming" whatever other processes run before or after it |
| `Profiles.ClassifyIgnoresCase` | auto_cpufreq/profiles.py:46 | process lists that agree after lower-casing are classified alike |
| `Profiles.ClassifyOfLowered` | auto_cpufreq/profiles.py:46 | lower-casing the names beforehand does not change the result |
| `Profiles.ClassifyEmpty` | auto_cpufreq/profiles.py:56-57 | no processes gives "default" |
| `Profiles.ClassifySteamAndChrome` | auto_cpufreq/profiles.py:48-55 | ["steam.exe", "chrome"] gives "gaming": the substring rule is reached before the battery-saver rule |
| `Profiles.ClassifyChromeAndBattery` | auto_cpufreq/profiles.py:54-55 | ["Chrome", "battery"] gives "battery_saver" |
| `Profiles.ClassifyMyChromeAndBattery` | auto_cpufreq/profiles.py:54-57 | ["mychrome", "battery"] gives "default": the battery-saver rule needs whole names |
| `Profiles.PolicyState.constructor` | auto_cpufreq/profiles.py:38 | the active profile starts as "default", a catalog key |
| `Profiles.PolicyState.DetectProfile` | auto_cpufreq/profiles.py:41-60 | the active profile and the returned profile both equal the classification of the process list, and the active profile stays a catalog key |
| `Profiles.PolicyState.GetProfileSettings` | auto_cpufreq/profiles.py:63-69 | always one of the catalog's settings; a known name gives its entry, an unknown name the "default" entry, no name the active profile's entry |
| `Profiles.DetectTwice` | auto_cpufreq/profiles.py:41-69 | detecting twice over the same processes gives the same profile, whose settings are then in force |
| `Battery.IsModuleLoaded` | auto_cpufreq/battery_scripts/battery.py:28-35 | a module counts as loaded iff `lsmod` ran and its name occurs as a substring of the output |
| `Battery.GetBatteryThresholds` | auto_cpufreq/battery_scripts/battery.py:41-51 | the print handler of the first loaded backend in the order ideapad_acpi, ideapad_laptop, thinkpad_acpi runs; a warning and no handler iff none is loaded |
| `Battery.SetupBatteryCharging` | auto_cpufreq/battery_scripts/battery.py:54-64 | the setup handler of the first loaded backend in the same order runs; a warning and no handler iff none is loaded |
| `Battery.FirstLoadedUnique` | auto_cpufreq/battery_scripts/battery.py:44-51 | at most one backend can be the one chosen |
| `Battery.SameBackendForReadAndSetup` | auto_cpufreq/battery_scripts/battery.py:41-64 | reading and setting up choose the same backend, or both none, for the same module list |
| `Battery.IdeapadAcpiTakesPriority` | auto_cpufreq/battery_scripts/battery.py:44-58 | when ideapad_acpi is loaded its handlers are chosen, whatever else is loaded |
| `Battery.KhzToMhz` | auto_cpufreq/battery_scripts/battery.py:82-84 | the megahertz shown is the kHz value divided by 1000, rounded down |
| `Battery.CoreLabelAsWritten` | auto_cpufreq/battery_scripts/battery.py:83 | the label as written, `basename(dirname(path))`, is a single path component |
| `Battery.CoreLabel` | auto_cpufreq/battery_scripts/battery.py:83 | the corrected label, `basename(dirname(dirname(path)))`, is a single path component |
| `Battery.Reading` | auto_cpufreq/battery_scripts/battery.py:82-84 | the line for a readable path carries the path's label and its kHz value divided by 1000, rounded down |
| `Battery.Readable` | auto_cpufreq/battery_scripts/battery.py:79-86 | the paths that produce a line are never more than the paths scanned, and each of them could be read as an integer |
| `Battery.PrintCpuFrequencies` | auto_cpufreq/battery_scripts/battery.py:70-86 | no paths gives the early "unavailable" return; otherwise one line per readable path, in sorted path order, each with the path's label and its frequency in MHz; unreadable paths are skipped. The label function is a parameter: `CoreLabelAsWritten` gives the code as written, `CoreLabel` the intended label |
| `Battery.ReadableCounts` | auto_cpufreq/battery_scripts/battery.py:79-86 | a readable path appears as many times as it was scanned; an unreadable path does not appear |
| `Battery.ReadableMembers` | auto_cpufreq/battery_scripts/battery.py:79-86 | the listed paths are exactly the glob matches whose file could be read as an integer |
| `Battery.ReadableSorted` | auto_cpufreq/battery_scripts/battery.py:79-86 | skipping failed paths keeps the remaining lines in sorted order |
| `Battery.ListedPathsAreTheReadableOnes` | auto_cpufreq/battery_scripts/battery.py:72-86 | the listing covers exactly the readable glob matches, in Python string order, each as often as the glob returned it, so at most once per path |
| `Battery.LexicalCoreOrder` | auto_cpufreq/battery_scripts/battery.py:79 | the cpu10 file is listed before the cpu2 file |
| `Battery.AsWrittenLabelIsCpufreq` | auto_cpufreq/battery_scripts/battery.py:83 | as written, every glob match is labelled "cpufreq", whatever its core |
| `Battery.CoreLabelOfFreqPath` | auto_cpufreq/battery_scripts/battery.py:83 | the corrected label of `.../cpuN/cpufreq/scaling_cur_freq` is `cpuN` |
| `Battery.AsWrittenPathLabel` | auto_cpufreq/battery_scripts/battery.py:83 | as written, any path of the globbed form is labelled "cpufreq" |
| `Battery.PathOfCoreLabel` | auto_cpufreq/battery_scripts/battery.py:83 | with the corrected label, a path of the globbed form is the frequency path of the core it names |
| `Battery.AsWrittenListingSaysCpufreq` | auto_cpufreq/battery_scripts/battery.py:72-84 | as written, every line of a listing of glob matches says "cpufreq" |
| `Battery.ListingNamesGlobbedCores` | auto_cpufreq/battery_scripts/battery.py:72-84 | with the corrected label, every line names a core whose frequency file the glob returned and which could be read |
| `LexOrder.SortPaths` | auto_cpufreq/battery_scripts/battery.py:79 | `sorted()` returns the same paths as a permutation, in ascending Python string order |
| `PosixPath.SplitJoin` | auto_cpufreq/battery_scripts/battery.py:83 | `dirname` and `basename` of `d/b` give back `d` and `b` when `b` has no separator |
| `Text.DecimalRoundTrip` | auto_cpufreq/battery_helper.py:17 | `int(str(n)) == n` for every integer |
| `Text.ParseInt` | auto_cpufreq/battery_helper.py:39 | `int()` on stripped text: it raises (None) exactly when the text is empty, a lone sign, or has a character that is neither a digit nor a leading sign; a string of digits reads as its decimal value |
| `BatteryHelper.IntContent` | auto_cpufreq/battery_helper.py:39 | `int(f.read().strip())`, also at lines 55 and 57: file text that is the decimal form of a number, with any white space around it, reads as that number; it raises ValueError (None) exactly when the stripped text is not an optionally signed string of digits |
| `BatteryHelper.LettersAreNoInt` | auto_cpufreq/battery_helper.py:39 | the text "abc" followed by a newline is rejected by `int()` |
| `BatteryHelper.GarbledCapacityRaises` | auto_cpufreq/battery_helper.py:37-41 | a capacity file holding "abc" makes `get_battery_health()` raise ValueError for that file, since only FileNotFoundError is caught |
| `BatteryHelper.ThresholdReadsBack` | auto_cpufreq/battery_helper.py:14-17 | the threshold text written reads back, stripped and parsed, as the same number |
| `BatteryHelper.WearLevel` | auto_cpufreq/battery_helper.py:58 | a wear value exists iff the design capacity is non-zero, and then the full capacity is (100 − wear)% of the design capacity |
| `BatteryHelper.WearOfFifthLost` | auto_cpufreq/battery_helper.py:58 | design 5000 and full 4000 give a wear of 20 |
| `BatteryHelper.WearNegativeAboveDesign` | auto_cpufreq/battery_helper.py:58 | the wear is not clamped: full above design gives a negative wear |
| `BatteryHelper.WearIsPercentage` | auto_cpufreq/battery_helper.py:58 | a full capacity between 0 and the design capacity gives a wear between 0 and 100 |
| `BatteryHelper.Sysfs.SetChargeThreshold` | auto_cpufreq/battery_helper.py:8-28 | True iff the end-threshold file exists and opening it for writing does not fail; on success that file holds exactly `str(threshold)`, with no range check; otherwise nothing changes; nothing is raised |
| `BatteryHelper.Sysfs.GetBatteryHealth` | auto_cpufreq/battery_helper.py:31-62 | the three fields are filled independently: percentage iff the capacity file exists, status iff the status file exists, wear iff both capacity files exist, both parse and the design is non-zero, with the wear formula; capacity text that is not an integer raises ValueError |

## Left out

- `live_cpu_monitor` (battery.py:92-101): an endless loop that clears the terminal, sleeps and stops on Ctrl+C. It is terminal I/O and timing.
- The vendor handlers `ideapad_acpi_*`, `ideapad_laptop_*` and `thinkpad_*` (battery.py:9-17): their code is not part of this model. A chosen handler appears only as a `Dispatch` value naming the backend and the operation.
- Running `lsmod`, `psutil.process_iter`, `glob.glob`, opening and reading files: their results are inputs. The module entry point (battery.py:107-118) is left out too.
- Logging and printing. The warnings of the dispatchers appear as messages in `Dispatch`. The printed CPU lines appear as `CoreFrequency` values.
- Battery.GetBatteryThresholds, Battery.SetupBatteryCharging: each `is_module_loaded` call runs `lsmod` again. The model uses one snapshot of its output for all three checks, so it does not capture modules loaded or unloaded between the checks.
- Battery.PrintCpuFrequencies: reading a file and parsing its integer are one input, a map from path to kHz. A path the map lacks is one whose read or parse raised.
- Text.Lower, Text.Strip, Text.ParseInt: only ASCII is modelled. This leaves out Unicode case mapping (including characters whose lower-case form is longer), Unicode white space, non-ASCII digits, and the underscores `int()` accepts between digits.
- BatteryHelper.WearLevel: computed in exact real arithmetic. It leaves out rounding to two decimals and floating-point error. Python's `int / int` is correctly rounded even for huge integers, but it raises OverflowError when the quotient is beyond the float range; the source catches that and leaves the wear unset. A quotient within range whose product with 100 exceeds the float range becomes infinity, and the source then reports a wear of minus infinity without raising. The model gives the exact real value in both cases.
- BatteryHelper.Sysfs.GetBatteryHealth: reading an existing file never fails in the model. A PermissionError or other OS error while reading capacity or status would escape the source function, and one while reading the two capacity files would leave the wear unset.
- BatteryHelper.Sysfs.SetChargeThreshold: a failing open or write is one fault that applies to every write. It leaves the file unchanged, and the model does not capture a partly written file.
- Profiles.PolicyState.GetProfileSettings: returns the settings as a value. The source returns the catalog's own dict, so a caller could change the catalog through it; that aliasing is not modelled.

## Findings

| source | as written | input that shows it | evidently intended | confidence | as-written member | corrected member |
|---|---|---|---|---|---|---|
| auto_cpufreq/battery_scripts/battery.py:83 | the label is `os.path.basename(os.path.dirname(path))`, which is `cpufreq` for every path the glob returns | `/sys/devices/system/cpu/cpu2/cpufreq/scaling_cur_freq` is labelled `cpufreq` rather than `cpu2`, so every core prints the same label | the name of the core directory, `basename(dirname(dirname(path)))`, here `cpu2` | high; not executed | `Battery.AsWrittenListingSaysCpufreq` | `Battery.ListingNamesGlobbedCores` |
