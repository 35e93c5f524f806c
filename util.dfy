/** The display helpers of the header `util.h`.  The wide-to-UTF-8 conversions
    there are calls into the platform and are not part of this model. */
module Util {
  import opened Win32

  /** The name printed for a DMDO_* orientation value. */
  function DmOrientationToString(o: uint32): (name: string)
    ensures o as int == DMDO_DEFAULT <==> name == "landscape"
    ensures o as int == DMDO_90 <==> name == "portrait"
    ensures o as int == DMDO_180 <==> name == "landscape-flipped"
    ensures o as int == DMDO_270 <==> name == "portrait-flipped"
    ensures name == "unknown" <==> o as int > DMDO_270
  {
    if o as int == DMDO_DEFAULT then "landscape"
    else if o as int == DMDO_90 then "portrait"
    else if o as int == DMDO_180 then "landscape-flipped"
    else if o as int == DMDO_270 then "portrait-flipped"
    else "unknown"
  }
}
