/** The adapter-level helpers of `windows_display.cpp`: the text for a
    ChangeDisplaySettingsEx result code, choosing an adapter by its enumeration
    index, and changing only the refresh rate of an adapter. */
module WindowsDisplay {
  import opened Wrappers
  import opened Win32

  /** The DISP_CHANGE_* codes that have a text of their own. */
  const NamedChangeCodes: set<int32> := {
    DISP_CHANGE_SUCCESSFUL, DISP_CHANGE_RESTART, DISP_CHANGE_FAILED, DISP_CHANGE_BADMODE,
    DISP_CHANGE_NOTUPDATED, DISP_CHANGE_BADFLAGS, DISP_CHANGE_BADPARAM, DISP_CHANGE_BADDUALVIEW
  }

  /** The human text for a ChangeDisplaySettingsEx result code; total over all codes. */
  function ChangeResultToText(code: int32): (text: string)
    ensures text == "settings applied" <==> code == DISP_CHANGE_SUCCESSFUL
    ensures text == "restart required" <==> code == DISP_CHANGE_RESTART
    ensures text == "mode unsupported" <==> code == DISP_CHANGE_BADMODE
    ensures text == "bad parameter" <==> code == DISP_CHANGE_BADPARAM
    ensures text == "invalid flags" <==> code == DISP_CHANGE_BADFLAGS
    ensures text == "dual-view limitation" <==> code == DISP_CHANGE_BADDUALVIEW
    ensures text == "registry not updated" <==> code == DISP_CHANGE_NOTUPDATED
    ensures text == "driver rejected mode" <==> code == DISP_CHANGE_FAILED
    ensures text == "unknown error" <==> code !in NamedChangeCodes
  {
    match code
    case 0 => "settings applied"
    case 1 => "restart required"
    case -2 => "mode unsupported"
    case -5 => "bad parameter"
    case -4 => "invalid flags"
    case -6 => "dual-view limitation"
    case -3 => "registry not updated"
    case -1 => "driver rejected mode"
    case _ => "unknown error"
  }

  /** Distinct named codes have distinct texts. */
  lemma ChangeResultTextsDistinct(a: int32, b: int32)
    requires a in NamedChangeCodes && b in NamedChangeCodes && a != b
    ensures ChangeResultToText(a) != ChangeResultToText(b)
  {
  }

  /** The part of DISPLAY_DEVICEA the tool uses. */
  datatype DisplayDevice = DisplayDevice(deviceName: string, deviceString: string, stateFlags: bv32)

  /** A DISPLAY_DEVICEA cleared by `memset`. */
  const ZeroDevice := DisplayDevice("", "", 0)

  /** EnumDisplayDevicesA(nullptr, i, ...) succeeds for every index below `n`. */
  predicate EnumeratesUpTo(devices: seq<Option<DisplayDevice>>, n: int) {
    n <= |devices| && forall k :: 0 <= k < n ==> devices[k].Some?
  }

  /** Enumerate adapters from index 0 until the first failing call; succeed
      with a copy of the `index`-th one if it is reached.  `devices[i]` is the
      answer of EnumDisplayDevicesA for index `i` (past the end: failure). */
  method GetAdapterByIndex(index: int32, devices: seq<Option<DisplayDevice>>)
    returns (found: bool, adapter: DisplayDevice)
    ensures found <==> 0 <= index && EnumeratesUpTo(devices, index as int + 1)
    ensures found ==> adapter == devices[index].value
    ensures !found ==> adapter == ZeroDevice
  {
    adapter := ZeroDevice;
    var i := 0;
    while true
      invariant 0 <= i <= |devices|
      invariant EnumeratesUpTo(devices, i)
      invariant index < 0 || i <= index as int
      decreases |devices| - i
    {
      if i == |devices| || devices[i].None? {
        break;
      }
      if i == index as int {
        adapter := devices[i].value;
        return true, adapter;
      }
      i := i + 1;
    }
    return false, adapter;
  }

  /** Read the adapter's current mode, then ask for the same mode with only the
      display frequency marked, always persisting it in the registry.
      `errorMessage` is the caller's string, overwritten only on failure. */
  method SetRefreshHz(adapter: DisplayDevice, hz: int32, gateway: ModeGateway, errorMessage: string)
    returns (ok: bool, error: string, calls: seq<GdiCall>)
    ensures |calls| >= 1 && calls[0] == EnumCurrentSettings(adapter.deviceName)
    ensures gateway.current.None? ==>
      !ok && error == "could not read current display mode" && calls == [EnumCurrentSettings(adapter.deviceName)]
    ensures gateway.current.Some? ==>
      var requested := gateway.current.value.(fields := DM_DISPLAYFREQUENCY, displayFrequency := ToUint32(hz));
      calls == [EnumCurrentSettings(adapter.deviceName), ChangeDisplaySettingsEx(adapter.deviceName, requested, CDS_UPDATEREGISTRY)]
    ensures ok <==> gateway.current.Some? && gateway.changeResult == DISP_CHANGE_SUCCESSFUL
    ensures ok ==> error == errorMessage
    ensures gateway.current.Some? && !ok ==> error == ChangeResultToText(gateway.changeResult)
  {
    error := errorMessage;
    calls := [EnumCurrentSettings(adapter.deviceName)];
    if gateway.current.None? {
      error := "could not read current display mode";
      return false, error, calls;
    }
    var dm := gateway.current.value;
    dm := dm.(fields := DM_DISPLAYFREQUENCY);
    dm := dm.(displayFrequency := ToUint32(hz));
    calls := calls + [ChangeDisplaySettingsEx(adapter.deviceName, dm, CDS_UPDATEREGISTRY)];
    var r := gateway.changeResult;
    if r != DISP_CHANGE_SUCCESSFUL {
      error := ChangeResultToText(r);
      return false, error, calls;
    }
    return true, error, calls;
  }
}
