/** The parts of the Win32 API that the tool depends on: fixed-width integers,
    the named constants it uses, the DEVMODEA record it reads and writes, and the
    abstract answers of the display-settings calls.  The calls themselves are not
    modelled; each is replaced by the answer it gives. */
module Win32 {
  import opened Wrappers

  /** C `int` and `LONG` (both 32 bits on Windows). */
  newtype int32 = x: int | -0x8000_0000 <= x < 0x8000_0000

  /** C `DWORD`. */
  newtype uint32 = x: int | 0 <= x < 0x1_0000_0000

  const TWO_POW_32: int := 0x1_0000_0000

  /** The implicit conversion of a signed `int` to a `DWORD` (two's complement wrap-around). */
  function ToUint32(x: int32): (r: uint32)
    ensures (r as int - x as int) % TWO_POW_32 == 0
    ensures x >= 0 ==> r as int == x as int
  {
    if x < 0 then (x as int + TWO_POW_32) as uint32 else x as int as uint32
  }

  /** `i` has the same 32 bits as `u`: equal modulo 2^32, and equal outright
      when `u` fits in an `int`. */
  predicate SameBits(u: uint32, i: int32) {
    (i as int - u as int) % TWO_POW_32 == 0 && (u < 0x8000_0000 ==> i as int == u as int)
  }

  /** `static_cast<int>` of a `DWORD` (two's complement reinterpretation). */
  function ToInt32(x: uint32): (r: int32)
    ensures SameBits(x, r)
  {
    if x < 0x8000_0000 then x as int as int32 else (x as int - TWO_POW_32) as int32
  }

  /** The two conversions are inverse to each other. */
  lemma ToInt32OfToUint32(x: int32)
    ensures ToInt32(ToUint32(x)) == x
  {
  }

  // DMDO_* display orientations (plain integer macros).
  const DMDO_DEFAULT: int := 0
  const DMDO_90: int := 1
  const DMDO_180: int := 2
  const DMDO_270: int := 3

  // DISP_CHANGE_* result codes of ChangeDisplaySettingsEx.
  const DISP_CHANGE_SUCCESSFUL: int32 := 0
  const DISP_CHANGE_RESTART: int32 := 1
  const DISP_CHANGE_FAILED: int32 := -1
  const DISP_CHANGE_BADMODE: int32 := -2
  const DISP_CHANGE_NOTUPDATED: int32 := -3
  const DISP_CHANGE_BADFLAGS: int32 := -4
  const DISP_CHANGE_BADPARAM: int32 := -5
  const DISP_CHANGE_BADDUALVIEW: int32 := -6

  // CDS_* flags of ChangeDisplaySettingsEx.
  const CDS_UPDATEREGISTRY: bv32 := 0x0000_0001
  const CDS_TEST: bv32 := 0x0000_0002

  // DM_* bits of DEVMODEA.dmFields.
  const DM_DISPLAYORIENTATION: bv32 := 0x0000_0080
  const DM_PELSWIDTH: bv32 := 0x0008_0000
  const DM_PELSHEIGHT: bv32 := 0x0010_0000
  const DM_DISPLAYFREQUENCY: bv32 := 0x0040_0000

  // DISPLAYCONFIG_SOURCE_IN_USE bit of DISPLAYCONFIG_PATH_SOURCE_INFO.statusFlags.
  const DISPLAYCONFIG_SOURCE_IN_USE: bv32 := 0x0000_0001

  /** Whether `bit` is set in `flags`. */
  predicate HasBit(flags: bv32, bit: bv32) {
    flags & bit != 0
  }

  /** The fields of DEVMODEA that the tool reads or writes.  The record's other
      fields are not modelled; a copy of the record copies them along. */
  datatype DevMode = DevMode(
    fields: bv32,
    bitsPerPel: uint32,
    pelsWidth: uint32,
    pelsHeight: uint32,
    displayFrequency: uint32,
    displayOrientation: uint32)

  /** A call into the display-settings API, as recorded in a trace. */
  datatype GdiCall =
    | EnumCurrentSettings(device: string)
    | ChangeDisplaySettingsEx(device: string, mode: DevMode, flags: bv32)

  /** The answers the platform gives, for one device, to the calls of one apply:
      the read of the current settings (None when EnumDisplaySettingsA fails), the
      code ChangeDisplaySettingsExA returns, and the re-read after a change. */
  datatype ModeGateway = ModeGateway(
    current: Option<DevMode>,
    changeResult: int32,
    afterChange: Option<DevMode>)

  /** The number of mutating calls in a trace. */
  function ChangeCount(calls: seq<GdiCall>): (n: nat)
    ensures n <= |calls|
    ensures n == 0 <==> forall k :: 0 <= k < |calls| ==> !calls[k].ChangeDisplaySettingsEx?
  {
    if calls == [] then 0
    else ChangeCount(calls[..|calls| - 1]) + (if calls[|calls| - 1].ChangeDisplaySettingsEx? then 1 else 0)
  }
}
