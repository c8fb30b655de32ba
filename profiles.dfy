/**
 * auto_cpufreq/profiles.py: the profile catalog, the workload classifier
 * that picks a profile from the names of the running processes, and the
 * module-level active profile that the classifier updates.
 *
 * The process names are an input; enumerating processes is not modelled.
 */
module Profiles {
  import opened Wrappers
  import opened Text

  /** The settings of one profile. */
  datatype Settings = Settings(governor: string, turbo: bool, gpuBoost: bool)

  /** `PROFILES`: the fixed catalog, keyed by profile name. */
  function Catalog(): (table: map<string, Settings>)
    ensures |table| == 5
    ensures table.Keys == {"default", "gaming", "work", "video_editing", "battery_saver"}
    ensures table["gaming"] == table["video_editing"]
    ensures !table["default"].turbo && !table["default"].gpuBoost
    ensures !table["battery_saver"].turbo && !table["battery_saver"].gpuBoost
  {
    map[
      "default" := Settings("schedutil", false, false),
      "gaming" := Settings("performance", true, true),
      "work" := Settings("ondemand", true, false),
      "video_editing" := Settings("performance", true, true),
      "battery_saver" := Settings("powersave", false, false)
    ]
  }

  // ---------------------------------------------------------------------
  // The classifier
  // ---------------------------------------------------------------------

  /** `[p.lower() for p in processes]`. */
  function LowerAll(processes: seq<string>): (names: seq<string>)
    ensures |names| == |processes|
    ensures forall i :: 0 <= i < |names| ==> names[i] == Lower(processes[i])
  {
    seq(|processes|, i requires 0 <= i < |processes| => Lower(processes[i]))
  }

  /**
   * `any(k1 in p or k2 in p for p in names)`, left to right: true exactly
   * when some name contains one of the two keywords.
   */
  function AnyContains(names: seq<string>, k1: string, k2: string): (found: bool)
    ensures found <==> exists i :: 0 <= i < |names| && (Occurs(k1, names[i]) || Occurs(k2, names[i]))
  {
    if names == [] then false
    else
      ContainsIffOccurs(names[0], k1);
      ContainsIffOccurs(names[0], k2);
      assert forall i :: 0 < i < |names| ==> names[1..][i - 1] == names[i];
      Contains(names[0], k1) || Contains(names[0], k2) || AnyContains(names[1..], k1, k2)
  }

  /** The rule chain of `detect_profile()`: the first rule that matches wins. */
  function Classify(processes: seq<string>): (profile: string)
    ensures profile in Catalog()
  {
    var names := LowerAll(processes);
    if AnyContains(names, "steam", "game") then "gaming"
    else if AnyContains(names, "blender", "davinci") then "video_editing"
    else if AnyContains(names, "code", "pycharm") then "work"
    else if "chrome" in names && "battery" in names then "battery_saver"
    else "default"
  }

  // ---------------------------------------------------------------------
  // The rules, stated on the process names themselves
  // ---------------------------------------------------------------------

  /** Some process name, lower-cased, contains `keyword`. */
  ghost predicate Mentions(processes: seq<string>, keyword: string) {
    exists i :: 0 <= i < |processes| && Occurs(keyword, Lower(processes[i]))
  }

  /** Some process name, lower-cased, is exactly `name`. */
  ghost predicate Runs(processes: seq<string>, name: string) {
    exists i :: 0 <= i < |processes| && Lower(processes[i]) == name
  }

  ghost predicate GamingRule(ps: seq<string>) { Mentions(ps, "steam") || Mentions(ps, "game") }
  ghost predicate VideoRule(ps: seq<string>) { Mentions(ps, "blender") || Mentions(ps, "davinci") }
  ghost predicate WorkRule(ps: seq<string>) { Mentions(ps, "code") || Mentions(ps, "pycharm") }
  ghost predicate BatterySaverRule(ps: seq<string>) { Runs(ps, "chrome") && Runs(ps, "battery") }

  lemma AnyContainsMentions(processes: seq<string>, k1: string, k2: string)
    ensures AnyContains(LowerAll(processes), k1, k2) <==> Mentions(processes, k1) || Mentions(processes, k2)
  {
    var names := LowerAll(processes);
    if Mentions(processes, k1) {
      var i :| 0 <= i < |processes| && Occurs(k1, Lower(processes[i]));
      assert names[i] == Lower(processes[i]);
    }
    if Mentions(processes, k2) {
      var i :| 0 <= i < |processes| && Occurs(k2, Lower(processes[i]));
      assert names[i] == Lower(processes[i]);
    }
  }

  lemma InLowerAll(processes: seq<string>, name: string)
    ensures name in LowerAll(processes) <==> Runs(processes, name)
  {
    var names := LowerAll(processes);
    if Runs(processes, name) {
      var i :| 0 <= i < |processes| && Lower(processes[i]) == name;
      assert names[i] == name;
    }
  }

  /**
   * The whole rule chain: each profile is chosen exactly when its rule
   * matches and no earlier rule does.
   */
  lemma ClassifyRules(processes: seq<string>)
    ensures Classify(processes) == "gaming" <==> GamingRule(processes)
    ensures Classify(processes) == "video_editing" <==> !GamingRule(processes) && VideoRule(processes)
    ensures Classify(processes) == "work" <==>
              !GamingRule(processes) && !VideoRule(processes) && WorkRule(processes)
    ensures Classify(processes) == "battery_saver" <==>
              !GamingRule(processes) && !VideoRule(processes) && !WorkRule(processes)
              && BatterySaverRule(processes)
    ensures Classify(processes) == "default" <==>
              !GamingRule(processes) && !VideoRule(processes) && !WorkRule(processes)
              && !BatterySaverRule(processes)
  {
    AnyContainsMentions(processes, "steam", "game");
    AnyContainsMentions(processes, "blender", "davinci");
    AnyContainsMentions(processes, "code", "pycharm");
    InLowerAll(processes, "chrome");
    InLowerAll(processes, "battery");
  }

  /** A gaming process decides the outcome, whatever else is running. */
  lemma GamingWins(processes: seq<string>, others: seq<string>)
    requires GamingRule(processes)
    ensures Classify(processes + others) == "gaming"
    ensures Classify(others + processes) == "gaming"
  {
    ClassifyRules(processes + others);
    ClassifyRules(others + processes);
    if Mentions(processes, "steam") {
      var i :| 0 <= i < |processes| && Occurs("steam", Lower(processes[i]));
      assert (processes + others)[i] == processes[i];
      assert (others + processes)[|others| + i] == processes[i];
    } else {
      var i :| 0 <= i < |processes| && Occurs("game", Lower(processes[i]));
      assert (processes + others)[i] == processes[i];
      assert (others + processes)[|others| + i] == processes[i];
    }
  }

  /** Only the lower-cased names matter: lists that agree after lower-casing are classified alike. */
  lemma ClassifyIgnoresCase(processes: seq<string>, others: seq<string>)
    requires |processes| == |others|
    requires forall i :: 0 <= i < |processes| ==> Lower(processes[i]) == Lower(others[i])
    ensures Classify(processes) == Classify(others)
  {
    assert LowerAll(processes) == LowerAll(others);
  }

  /** In particular, lower-casing the names first changes nothing. */
  lemma ClassifyOfLowered(processes: seq<string>)
    ensures Classify(LowerAll(processes)) == Classify(processes)
  {
    forall i | 0 <= i < |processes|
      ensures Lower(LowerAll(processes)[i]) == Lower(processes[i])
    {
      LowerIdempotent(processes[i]);
    }
    ClassifyIgnoresCase(LowerAll(processes), processes);
  }

  /** No process name contains `keyword`, seen from a character of it that none of them has. */
  lemma NotMentioned(processes: seq<string>, keyword: string, j: int)
    requires 0 <= j < |keyword|
    requires forall i :: 0 <= i < |processes| ==> keyword[j] !in Lower(processes[i])
    ensures !Mentions(processes, keyword)
  {
  }

  /** Names without the letters s, g, l, d and p match none of the three substring rules. */
  lemma NoSubstringRule(processes: seq<string>)
    requires forall i :: 0 <= i < |processes| ==>
               var n := Lower(processes[i]);
               's' !in n && 'g' !in n && 'l' !in n && 'd' !in n && 'p' !in n
    ensures !GamingRule(processes) && !VideoRule(processes) && !WorkRule(processes)
  {
    NotMentioned(processes, "steam", 0);
    NotMentioned(processes, "game", 0);
    NotMentioned(processes, "blender", 1);
    NotMentioned(processes, "davinci", 0);
    NotMentioned(processes, "code", 2);
    NotMentioned(processes, "pycharm", 0);
  }

  lemma ClassifyEmpty()
    ensures Classify([]) == "default"
  {
  }

  /** A substring rule is reached before the exact-name battery-saver rule. */
  lemma ClassifySteamAndChrome()
    ensures Classify(["steam.exe", "chrome"]) == "gaming"
  {
    var ps := ["steam.exe", "chrome"];
    LowerOfLowercase("steam.exe");
    assert ps[0] == "steam.exe";
    assert OccursAt("steam", Lower(ps[0]), 0);
    ClassifyRules(ps);
  }

  /** Both names present exactly, in any letter case, select battery_saver. */
  lemma ClassifyChromeAndBattery()
    ensures Classify(["Chrome", "battery"]) == "battery_saver"
  {
    var ps := ["Chrome", "battery"];
    LowerOfLowercase("battery");
    assert Lower("Chrome") == "chrome";
    assert ps[0] == "Chrome" && ps[1] == "battery";
    NoSubstringRule(ps);
    ClassifyRules(ps);
    assert Runs(ps, "chrome") && Runs(ps, "battery");
  }

  /** The battery-saver rule wants the exact name `chrome`; `mychrome` does not do. */
  lemma ClassifyMyChromeAndBattery()
    ensures Classify(["mychrome", "battery"]) == "default"
  {
    var ps := ["mychrome", "battery"];
    LowerOfLowercase("mychrome");
    LowerOfLowercase("battery");
    assert ps[0] == "mychrome" && ps[1] == "battery";
    NoSubstringRule(ps);
    assert !Runs(ps, "chrome") by {
      assert |Lower(ps[0])| == 8 && |Lower(ps[1])| == 7;
    }
    ClassifyRules(ps);
  }

  // ---------------------------------------------------------------------
  // The active profile
  // ---------------------------------------------------------------------

  /** The module-level `active_profile` and the two functions that use it. */
  class PolicyState {
    var activeProfile: string

    /** The active profile is always a catalog entry. */
    ghost predicate Valid()
      reads this
    {
      activeProfile in Catalog()
    }

    /** Module load: `active_profile = "default"`. */
    constructor ()
      ensures Valid() && activeProfile == "default"
    {
      activeProfile := "default";
    }

    /** `detect_profile()`: classify the running processes and record the result. */
    method DetectProfile(processes: seq<string>) returns (profile: string)
      modifies this
      ensures Valid()
      ensures profile == activeProfile == Classify(processes)
    {
      activeProfile := Classify(processes);
      profile := activeProfile;
    }

    /**
     * `get_profile_settings(profile)`: the settings of the named profile, of
     * the active one when no name is given, and of "default" for a name the
     * catalog does not know.
     */
    function GetProfileSettings(profile: Option<string>): (settings: Settings)
      reads this
      ensures settings in Catalog().Values
      ensures profile.Some? && profile.value in Catalog() ==> settings == Catalog()[profile.value]
      ensures profile.Some? && profile.value !in Catalog() ==> settings == Catalog()["default"]
      ensures profile.None? && Valid() ==> settings == Catalog()[activeProfile]
    {
      var name := profile.GetOr(activeProfile);
      if name in Catalog() then Catalog()[name] else Catalog()["default"]
    }
  }

  /**
   * Detecting twice over the same process list gives the same profile, and
   * the settings then in force are those of the detected profile.
   */
  method DetectTwice(processes: seq<string>) returns (first: string, second: string, settings: Settings)
    ensures first == second == Classify(processes)
    ensures settings == Catalog()[first]
  {
    var state := new PolicyState();
    first := state.DetectProfile(processes);
    second := state.DetectProfile(processes);
    settings := state.GetProfileSettings(None);
  }
}
