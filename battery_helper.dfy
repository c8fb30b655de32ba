/**
 * auto_cpufreq/battery_helper.py: setting the charge end threshold and
 * reading the battery's health attributes under
 * /sys/class/power_supply/BAT0/.
 *
 * The file system is a map from path to contents.  Reading a file fails
 * only when its path is missing; opening a file for writing may fail with
 * a permission error or another OS error, as `writeFault` says.
 */
module BatteryHelper {
  import opened Wrappers
  import opened Text

  const BatteryPath := "/sys/class/power_supply/BAT0/"
  const ThresholdFile := BatteryPath + "charge_control_end_threshold"
  const CapacityFile := BatteryPath + "capacity"
  const StatusFile := BatteryPath + "status"
  const FullDesignFile := BatteryPath + "charge_full_design"
  const FullNowFile := BatteryPath + "charge_full"

  /** Why opening a file for writing raised. */
  datatype WriteFault = PermissionDenied | OtherError

  /** The dict `get_battery_health()` returns: the three keys, each None until filled. */
  datatype BatteryHealth = BatteryHealth(percentage: Option<int>, status: Option<string>, wearLevel: Option<real>)

  /** The exception that escapes `get_battery_health()`: `int()` rejected the text of `file`. */
  datatype HealthError = ValueError(file: string)

  /**
   * `int(f.read().strip())` on the contents of a file: the decimal text of
   * a number, with any white space around it, reads as that number, and
   * text that is not an integer once stripped raises ValueError (None).
   */
  function IntContent(text: string): (value: Option<int>)
    ensures forall n :: Strip(text) == IntToDecimal(n) ==> value == Some(n)
    ensures value.None? <==> Malformed(Strip(text))
  {
    assert forall n :: Strip(text) == IntToDecimal(n) ==> ParseInt(Strip(text)) == Some(n) by {
      forall n | Strip(text) == IntToDecimal(n) ensures ParseInt(Strip(text)) == Some(n) {
        DecimalRoundTrip(n);
      }
    }
    ParseInt(Strip(text))
  }

  /**
   * `100 - (full / design) * 100`, computed exactly; a design capacity of 0
   * raises ZeroDivisionError, which leaves the wear level unset (None).
   * The wear is the percentage of the design capacity that has been lost.
   */
  function WearLevel(design: int, full: int): (wear: Option<real>)
    ensures wear.Some? <==> design != 0
    ensures wear.Some? ==> (100.0 - wear.value) * (design as real) == (full as real) * 100.0
  {
    if design == 0 then None
    else Some(100.0 - (full as real / design as real) * 100.0)
  }

  /** Design 5000 and full 4000: a fifth of the capacity is lost. */
  lemma WearOfFifthLost()
    ensures WearLevel(5000, 4000) == Some(20.0)
  {
  }

  /** The wear is not clamped: a battery holding more than its design capacity shows negative wear. */
  lemma WearNegativeAboveDesign(design: int, full: int)
    requires 0 < design < full
    ensures WearLevel(design, full).Some? && WearLevel(design, full).value < 0.0
  {
  }

  /** Between no charge and the design capacity, the wear is a percentage. */
  lemma WearIsPercentage(design: int, full: int)
    requires 0 <= full <= design && design > 0
    ensures WearLevel(design, full).Some?
    ensures 0.0 <= WearLevel(design, full).value <= 100.0
  {
  }

  /** The threshold text written by SetChargeThreshold reads back as the same number. */
  lemma ThresholdReadsBack(threshold: int)
    ensures IntContent(IntToDecimal(threshold)) == Some(threshold)
  {
    StripTrimmed(IntToDecimal(threshold));
    DecimalRoundTrip(threshold);
  }

  /** The battery's sysfs directory, and what a write there runs into. */
  class Sysfs {
    var files: map<string, string>
    var writeFault: Option<WriteFault>

    constructor (files: map<string, string>, writeFault: Option<WriteFault>)
      ensures this.files == files && this.writeFault == writeFault
    {
      this.files := files;
      this.writeFault := writeFault;
    }

    /**
     * `set_charge_threshold(threshold)`: writes `str(threshold)` to the end
     * threshold file if that file exists, with no range check.  Any failure
     * is reported as False; nothing is raised.
     */
    method SetChargeThreshold(threshold: int) returns (ok: bool)
      modifies this`files
      ensures ok <==> ThresholdFile in old(files) && writeFault.None?
      ensures ok ==> files == old(files)[ThresholdFile := IntToDecimal(threshold)]
      ensures !ok ==> files == old(files)
    {
      if ThresholdFile in files {
        match writeFault
        case Some(PermissionDenied) =>
          ok := false;
        case Some(OtherError) =>
          ok := false;
        case None =>
          files := files[ThresholdFile := IntToDecimal(threshold)];
          ok := true;
      } else {
        ok := false;
      }
    }

    /**
     * `get_battery_health()`: fills the three fields one at a time.  A
     * missing file leaves its field None; the wear level needs both
     * capacity files, two integers and a non-zero design capacity, and any
     * failure there leaves it None.  Capacity text that is not an integer
     * raises ValueError, which is not caught.
     */
    method GetBatteryHealth() returns (result: Result<BatteryHealth, HealthError>)
      ensures result.Failure? <==> CapacityFile in files && IntContent(files[CapacityFile]).None?
      ensures result.Failure? ==> result.error == ValueError(CapacityFile)
      ensures result.Success? ==>
                (result.value.percentage.Some? <==> CapacityFile in files)
                && (CapacityFile in files ==> result.value.percentage == IntContent(files[CapacityFile]))
      ensures result.Success? ==>
                (result.value.status.Some? <==> StatusFile in files)
                && (StatusFile in files ==> result.value.status.value == Strip(files[StatusFile]))
      ensures result.Success? ==>
                (result.value.wearLevel.Some? <==>
                   FullDesignFile in files && FullNowFile in files
                   && IntContent(files[FullDesignFile]).Some? && IntContent(files[FullNowFile]).Some?
                   && IntContent(files[FullDesignFile]).value != 0)
      ensures result.Success? && result.value.wearLevel.Some? ==>
                result.value.wearLevel ==
                  WearLevel(IntContent(files[FullDesignFile]).value, IntContent(files[FullNowFile]).value)
    {
      var info := BatteryHealth(None, None, None);

      if CapacityFile in files {
        var percentage := IntContent(files[CapacityFile]);
        if percentage.None? {
          return Failure(ValueError(CapacityFile));
        }
        info := info.(percentage := percentage);
      }

      if StatusFile in files {
        info := info.(status := Some(Strip(files[StatusFile])));
      }

      if FullDesignFile in files && FullNowFile in files {
        var design := IntContent(files[FullDesignFile]);
        var full := IntContent(files[FullNowFile]);
        if design.Some? && full.Some? {
          var wear := WearLevel(design.value, full.value);
          if wear.Some? {
            info := info.(wearLevel := wear);
          }
        }
      }

      return Success(info);
    }
  }

  /** Text with a letter in it is not an integer, white space or not. */
  lemma LettersAreNoInt()
    ensures IntContent("abc\n") == None
  {
    var text := "abc\n";
    assert StripLeft(text) == text;
    assert StripRight(text) == "abc";
    assert !IsDigit("abc"[0]);
  }

  /** A capacity file holding "abc" makes `get_battery_health()` raise ValueError. */
  method GarbledCapacityRaises() returns (result: Result<BatteryHealth, HealthError>)
    ensures result == Failure(ValueError(CapacityFile))
  {
    LettersAreNoInt();
    var sysfs := new Sysfs(map[CapacityFile := "abc\n"], None);
    result := sysfs.GetBatteryHealth();
  }
}
