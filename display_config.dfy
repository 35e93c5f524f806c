/** The display catalog and the apply/verify procedure of `display_config.cpp`:
    listing active displays, listing the modes of one display, and applying a
    partial mode request with no-op detection and a post-apply check. */
module DisplayConfig {
  import opened Wrappers
  import opened Win32
  import opened CRuntime

  /** LUID: opaque adapter identity. */
  datatype Luid = Luid(lowPart: uint32, highPart: int32)

  datatype DisplayId = DisplayId(adapterLuid: Luid, targetId: uint32)

  datatype DisplayInfo = DisplayInfo(id: DisplayId, friendlyName: string, sourceName: string, isPrimary: bool)

  datatype ModeInfo = ModeInfo(width: int32, height: int32, hz: int32, orientation: int32, bitsPerPel: int32)

  /** A partial mode request; a negative (or, for the sizes and rate, zero)
      field is unset.  The defaults are the -1 sentinels and false. */
  datatype ApplyRequest = ApplyRequest(
    sourceName: string,
    width: int32, height: int32, hz: int32, orientation: int32,
    persist: bool, dryRun: bool)

  datatype ApplyResult = ApplyResult(success: bool, changed: bool, message: string)

  /** The part of one DISPLAYCONFIG_PATH_INFO the catalog uses, together with the
      answers of the two name look-ups made for it (None when a look-up fails). */
  datatype PathInfo = PathInfo(
    targetAdapterId: Luid, targetId: uint32,
    sourceId: uint32, sourceStatusFlags: bv32,
    targetFriendlyName: Option<string>, sourceGdiName: Option<string>)

  /** The answer of the active-path query: a failure of either call, or the paths. */
  datatype PathQuery =
    | BufferSizesFailed
    | QueryFailed
    | Paths(paths: seq<PathInfo>)

  // ---------------------------------------------------------------- listDisplays

  /** The record made for one path.  A failed name look-up leaves the name empty. */
  function DisplayFromPath(p: PathInfo): (d: DisplayInfo)
    ensures d.isPrimary <==> HasBit(p.sourceStatusFlags, DISPLAYCONFIG_SOURCE_IN_USE) && p.sourceId == 0
    ensures d.id == DisplayId(p.targetAdapterId, p.targetId)
    ensures d.friendlyName == if p.targetFriendlyName.Some? then p.targetFriendlyName.value else ""
    ensures d.sourceName == if p.sourceGdiName.Some? then p.sourceGdiName.value else ""
  {
    DisplayInfo(
      DisplayId(p.targetAdapterId, p.targetId),
      p.targetFriendlyName.GetOr(""),
      p.sourceGdiName.GetOr(""),
      HasBit(p.sourceStatusFlags, DISPLAYCONFIG_SOURCE_IN_USE) && p.sourceId == 0)
  }

  /** The catalog listDisplays produces, or None when it fails. */
  function Catalog(query: PathQuery): (c: Option<seq<DisplayInfo>>)
    ensures c.Some? <==> query.Paths?
    ensures c.Some? ==> |c.value| == |query.paths|
    ensures c.Some? ==> forall k :: 0 <= k < |query.paths| ==> c.value[k] == DisplayFromPath(query.paths[k])
  {
    match query
    case Paths(ps) => Some(seq(|ps|, k requires 0 <= k < |ps| => DisplayFromPath(ps[k])))
    case _ => None
  }

  /** Query the active paths and map each one, in order, to a display record.
      `out` and `errorMessage` are the caller's values: on failure `out` is left
      as it was, and on success `errorMessage` is. */
  method ListDisplays(query: PathQuery, out: seq<DisplayInfo>, errorMessage: string)
    returns (ok: bool, displays: seq<DisplayInfo>, error: string)
    ensures ok <==> query.Paths?
    ensures ok ==> Some(displays) == Catalog(query) && error == errorMessage
    ensures query.BufferSizesFailed? ==> displays == out && error == "GetDisplayConfigBufferSizes failed"
    ensures query.QueryFailed? ==> displays == out && error == "QueryDisplayConfig failed"
  {
    displays, error := out, errorMessage;
    if query.BufferSizesFailed? {
      error := "GetDisplayConfigBufferSizes failed";
      return false, displays, error;
    }
    if query.QueryFailed? {
      error := "QueryDisplayConfig failed";
      return false, displays, error;
    }
    var paths := query.paths;
    displays := [];
    for i := 0 to |paths|
      invariant |displays| == i
      invariant forall k :: 0 <= k < i ==> displays[k] == DisplayFromPath(paths[k])
    {
      var p := paths[i];
      var info := DisplayInfo(DisplayId(p.targetAdapterId, p.targetId), "", "", false);
      info := info.(isPrimary := HasBit(p.sourceStatusFlags, DISPLAYCONFIG_SOURCE_IN_USE) && p.sourceId == 0);
      if p.targetFriendlyName.Some? {
        info := info.(friendlyName := p.targetFriendlyName.value);
      }
      if p.sourceGdiName.Some? {
        info := info.(sourceName := p.sourceGdiName.value);
      }
      displays := displays + [info];
    }
    assert displays == Catalog(query).value;
    return true, displays, error;
  }

  /** No active path is a successful, empty catalog. */
  lemma EmptyCatalogIsSuccess()
    ensures Catalog(Paths([])) == Some([])
  {
  }

  // ---------------------------------------------------------------- listModes

  /** The record made for one enumerated DEVMODEA (each DWORD cast to int). */
  function ModeFromDevMode(dm: DevMode): (m: ModeInfo)
    ensures SameBits(dm.pelsWidth, m.width) && SameBits(dm.pelsHeight, m.height)
    ensures SameBits(dm.displayFrequency, m.hz) && SameBits(dm.displayOrientation, m.orientation)
    ensures SameBits(dm.bitsPerPel, m.bitsPerPel)
  {
    ModeInfo(ToInt32(dm.pelsWidth), ToInt32(dm.pelsHeight), ToInt32(dm.displayFrequency),
             ToInt32(dm.displayOrientation), ToInt32(dm.bitsPerPel))
  }

  /** listModes succeeds exactly when the enumeration call for index 0 succeeds. */
  predicate ModesAvailable(enumeration: seq<Option<DevMode>>) {
    |enumeration| > 0 && enumeration[0].Some?
  }

  /** Enumerate the modes of `sourceName` from index 0 until the first failing
      call, one record per successful call, neither sorted nor de-duplicated.
      `enumeration[i]` is the answer of EnumDisplaySettingsA for index `i`
      (past the end: failure).  `errorMessage` is the caller's string. */
  method ListModes(sourceName: string, enumeration: seq<Option<DevMode>>, errorMessage: string)
    returns (ok: bool, modes: seq<ModeInfo>, error: string)
    ensures |modes| <= |enumeration|
    ensures forall k :: 0 <= k < |modes| ==> enumeration[k].Some? && modes[k] == ModeFromDevMode(enumeration[k].value)
    ensures |modes| < |enumeration| ==> enumeration[|modes|].None?
    ensures ok <==> |modes| > 0
    ensures ok <==> ModesAvailable(enumeration)
    ensures error == if ok then errorMessage else "No modes or failed to enumerate for " + sourceName
  {
    modes, error := [], errorMessage;
    var i := 0;
    while i < |enumeration| && enumeration[i].Some?
      invariant 0 <= i <= |enumeration|
      invariant |modes| == i
      invariant forall k :: 0 <= k < i ==> enumeration[k].Some? && modes[k] == ModeFromDevMode(enumeration[k].value)
    {
      var dm := enumeration[i].value;
      var m := ModeInfo(ToInt32(dm.pelsWidth), ToInt32(dm.pelsHeight), ToInt32(dm.displayFrequency),
                        ToInt32(dm.displayOrientation), ToInt32(dm.bitsPerPel));
      modes := modes + [m];
      i := i + 1;
    }
    if |modes| == 0 {
      error := "No modes or failed to enumerate for " + sourceName;
      return false, modes, error;
    }
    return true, modes, error;
  }

  // ---------------------------------------------------------------- applyMode

  /** All fields named in `mask` agree between `a` and `b`. */
  predicate MaskedFieldsAgree(mask: bv32, a: DevMode, b: DevMode) {
    && (HasBit(mask, DM_PELSWIDTH) ==> a.pelsWidth == b.pelsWidth)
    && (HasBit(mask, DM_PELSHEIGHT) ==> a.pelsHeight == b.pelsHeight)
    && (HasBit(mask, DM_DISPLAYFREQUENCY) ==> a.displayFrequency == b.displayFrequency)
    && (HasBit(mask, DM_DISPLAYORIENTATION) ==> a.displayOrientation == b.displayOrientation)
  }

  /** The four DM_* bits a request can set. */
  const RequestBits: bv32 := DM_PELSWIDTH | DM_PELSHEIGHT | DM_DISPLAYFREQUENCY | DM_DISPLAYORIENTATION

  /** The target mode: the current mode with each supplied request field
      written over it and marked in the field mask; width and height are
      taken independently of each other. */
  function Target(req: ApplyRequest, current: DevMode): (t: DevMode)
    ensures HasBit(t.fields, DM_PELSWIDTH) <==> req.width > 0
    ensures HasBit(t.fields, DM_PELSHEIGHT) <==> req.height > 0
    ensures HasBit(t.fields, DM_DISPLAYFREQUENCY) <==> req.hz > 0
    ensures HasBit(t.fields, DM_DISPLAYORIENTATION) <==> req.orientation >= 0
    ensures t.fields & !RequestBits == 0
    ensures req.width > 0 ==> t.pelsWidth as int == req.width as int
    ensures req.height > 0 ==> t.pelsHeight as int == req.height as int
    ensures req.hz > 0 ==> t.displayFrequency as int == req.hz as int
    ensures req.orientation >= 0 ==> t.displayOrientation as int == req.orientation as int
    ensures t.(fields := 0) == current.(fields := 0,
      pelsWidth := t.pelsWidth, pelsHeight := t.pelsHeight,
      displayFrequency := t.displayFrequency, displayOrientation := t.displayOrientation)
    ensures MaskedFieldsAgree(!t.fields, t, current)
  {
    DevMode(
      (if req.width > 0 then DM_PELSWIDTH else 0)
        | (if req.height > 0 then DM_PELSHEIGHT else 0)
        | (if req.hz > 0 then DM_DISPLAYFREQUENCY else 0)
        | (if req.orientation >= 0 then DM_DISPLAYORIENTATION else 0),
      current.bitsPerPel,
      if req.width > 0 then req.width as int as uint32 else current.pelsWidth,
      if req.height > 0 then req.height as int as uint32 else current.pelsHeight,
      if req.hz > 0 then req.hz as int as uint32 else current.displayFrequency,
      if req.orientation >= 0 then req.orientation as int as uint32 else current.displayOrientation)
  }

  /** The flags passed to ChangeDisplaySettingsEx. */
  function ChangeFlags(dryRun: bool, persist: bool): (flags: bv32)
    ensures HasBit(flags, CDS_TEST) <==> dryRun
    ensures HasBit(flags, CDS_UPDATEREGISTRY) <==> persist
    ensures flags & !(CDS_TEST | CDS_UPDATEREGISTRY) == 0
  {
    (if dryRun then CDS_TEST else 0) | (if persist then CDS_UPDATEREGISTRY else 0)
  }

  /** Everything one call of applyMode does: its return value, the result
      record it fills, and the platform calls it makes, in order. */
  datatype ApplyRun = ApplyRun(ok: bool, result: ApplyResult, calls: seq<GdiCall>)

  /** The message of a rejected mutation. */
  function RejectedMessage(code: int32): string {
    "apply failed (code=" + IntToString(code as int) + ")"
  }

  /** The apply/verify procedure as a function of the request and of the
      platform's answers. */
  function ApplySpec(req: ApplyRequest, gateway: ModeGateway): (run: ApplyRun)
    ensures run.ok == run.result.success
    ensures run.result.changed ==> run.result.success && !req.dryRun
    ensures |run.calls| >= 1 && run.calls[0] == EnumCurrentSettings(req.sourceName)
    ensures ChangeCount(run.calls) <= 1
    ensures ChangeCount(run.calls) == 1 <==>
      gateway.current.Some? && !MaskedFieldsAgree(Target(req, gateway.current.value).fields,
                                                  Target(req, gateway.current.value), gateway.current.value)
  {
    var read := EnumCurrentSettings(req.sourceName);
    if gateway.current.None? then
      ApplyRun(false, ApplyResult(false, false, "Failed to read current settings"), [read])
    else
      var current := gateway.current.value;
      var target := Target(req, current);
      if MaskedFieldsAgree(target.fields, target, current) then
        ApplyRun(true, ApplyResult(true, false, "Already in requested state"), [read])
      else
        var change := ChangeDisplaySettingsEx(req.sourceName, target, ChangeFlags(req.dryRun, req.persist));
        if gateway.changeResult != DISP_CHANGE_SUCCESSFUL then
          ApplyRun(false, ApplyResult(false, false, RejectedMessage(gateway.changeResult)), [read, change])
        else if req.dryRun then
          ApplyRun(true, ApplyResult(true, false, "Valid (dry-run)"), [read, change])
        else if gateway.afterChange.None? then
          ApplyRun(true, ApplyResult(true, true, "Applied but could not verify"), [read, change, read])
        else if !MaskedFieldsAgree(target.fields, gateway.afterChange.value, target) then
          ApplyRun(false, ApplyResult(false, false, "Verification mismatch after apply"), [read, change, read])
        else
          ApplyRun(true, ApplyResult(true, true, "Applied"), [read, change, read])
  }

  /** Overlay the supplied request fields on a copy of the current mode,
      starting from an empty field mask and marking each field written. */
  method OverlayRequest(req: ApplyRequest, current: DevMode) returns (target: DevMode)
    ensures target == Target(req, current)
  {
    target := current.(fields := 0);
    if req.width > 0 {
      target := target.(pelsWidth := req.width as int as uint32, fields := target.fields | DM_PELSWIDTH);
    }
    if req.height > 0 {
      target := target.(pelsHeight := req.height as int as uint32, fields := target.fields | DM_PELSHEIGHT);
    }
    if req.hz > 0 {
      target := target.(displayFrequency := req.hz as int as uint32, fields := target.fields | DM_DISPLAYFREQUENCY);
    }
    if req.orientation >= 0 {
      target := target.(displayOrientation := req.orientation as int as uint32, fields := target.fields | DM_DISPLAYORIENTATION);
    }
  }

  /** The four-field comparison applyMode makes twice: a flag starts true and
      is cleared by every field that is marked in `mask` and differs. */
  method CompareMaskedFields(mask: bv32, a: DevMode, b: DevMode) returns (agree: bool)
    ensures agree == MaskedFieldsAgree(mask, a, b)
  {
    agree := true;
    if HasBit(mask, DM_PELSWIDTH) && a.pelsWidth != b.pelsWidth { agree := false; }
    if HasBit(mask, DM_PELSHEIGHT) && a.pelsHeight != b.pelsHeight { agree := false; }
    if HasBit(mask, DM_DISPLAYFREQUENCY) && a.displayFrequency != b.displayFrequency { agree := false; }
    if HasBit(mask, DM_DISPLAYORIENTATION) && a.displayOrientation != b.displayOrientation { agree := false; }
  }

  /** Read the current mode, overlay the supplied request fields, skip the
      mutation when nothing masked would change, call ChangeDisplaySettingsEx
      once, and on a real run re-read the mode and check every masked field. */
  method ApplyMode(req: ApplyRequest, gateway: ModeGateway)
    returns (ok: bool, result: ApplyResult, calls: seq<GdiCall>)
    ensures ApplyRun(ok, result, calls) == ApplySpec(req, gateway)
  {
    result := ApplyResult(false, false, "");
    calls := [EnumCurrentSettings(req.sourceName)];
    if gateway.current.None? {
      result := result.(message := "Failed to read current settings");
      return false, result, calls;
    }
    var current := gateway.current.value;
    var target := OverlayRequest(req, current);

    // No-op detection.
    var sameState := CompareMaskedFields(target.fields, target, current);
    var wouldChange := !sameState;
    if !wouldChange {
      result := result.(success := true, changed := false, message := "Already in requested state");
      return true, result, calls;
    }

    var flags: bv32 := 0;
    if req.dryRun { flags := flags | CDS_TEST; }
    if req.persist { flags := flags | CDS_UPDATEREGISTRY; }

    calls := calls + [ChangeDisplaySettingsEx(req.sourceName, target, flags)];
    var r := gateway.changeResult;
    if r != DISP_CHANGE_SUCCESSFUL {
      result := result.(message := "apply failed (code=" + IntToString(r as int) + ")");
      return false, result, calls;
    }

    if !req.dryRun {
      calls := calls + [EnumCurrentSettings(req.sourceName)];
      if gateway.afterChange.None? {
        result := result.(message := "Applied but could not verify", success := true, changed := true);
        return true, result, calls;
      }
      var verified := CompareMaskedFields(target.fields, gateway.afterChange.value, target);
      if !verified {
        result := result.(message := "Verification mismatch after apply");
        return false, result, calls;
      }
    }

    result := result.(success := true, changed := !req.dryRun, message := if req.dryRun then "Valid (dry-run)" else "Applied");
    return true, result, calls;
  }

  // ---------------------------------------------------------------- properties of applyMode

  /** Every supplied request field has the requested value in `m`. */
  predicate SatisfiesRequest(req: ApplyRequest, m: DevMode) {
    && (req.width > 0 ==> m.pelsWidth as int == req.width as int)
    && (req.height > 0 ==> m.pelsHeight as int == req.height as int)
    && (req.hz > 0 ==> m.displayFrequency as int == req.hz as int)
    && (req.orientation >= 0 ==> m.displayOrientation as int == req.orientation as int)
  }

  /** No-op detection: no masked field of the target differs from the current
      mode exactly when the current mode already satisfies the request. */
  lemma NoChangeIffSatisfied(req: ApplyRequest, current: DevMode)
    ensures MaskedFieldsAgree(Target(req, current).fields, Target(req, current), current)
        <==> SatisfiesRequest(req, current)
  {
  }

  /** Verification: the re-read agrees with the target on every masked field
      exactly when the re-read mode satisfies the request. */
  lemma VerifiedIffSatisfied(req: ApplyRequest, current: DevMode, after: DevMode)
    ensures MaskedFieldsAgree(Target(req, current).fields, after, Target(req, current))
        <==> SatisfiesRequest(req, after)
  {
  }

  /** A failed read of the current settings ends the call at once. */
  lemma ReadFailureOutcome(req: ApplyRequest, gateway: ModeGateway)
    requires gateway.current.None?
    ensures ApplySpec(req, gateway)
         == ApplyRun(false, ApplyResult(false, false, "Failed to read current settings"),
                     [EnumCurrentSettings(req.sourceName)])
  {
  }

  /** A request the current mode already satisfies (in particular one that
      supplies no field) is reported as such and makes no mutation call. */
  lemma NoOpOutcome(req: ApplyRequest, gateway: ModeGateway)
    requires gateway.current.Some? && SatisfiesRequest(req, gateway.current.value)
    ensures ApplySpec(req, gateway)
         == ApplyRun(true, ApplyResult(true, false, "Already in requested state"),
                     [EnumCurrentSettings(req.sourceName)])
  {
    NoChangeIffSatisfied(req, gateway.current.value);
  }

  /** With no field supplied the mask is empty and the call is a no-op. */
  lemma EmptyRequestIsNoOp(req: ApplyRequest, gateway: ModeGateway)
    requires req.width <= 0 && req.height <= 0 && req.hz <= 0 && req.orientation < 0
    requires gateway.current.Some?
    ensures Target(req, gateway.current.value).fields == 0
    ensures ApplySpec(req, gateway).result == ApplyResult(true, false, "Already in requested state")
  {
    NoOpOutcome(req, gateway);
  }

  /** When a change is needed, ChangeDisplaySettingsEx is called once, with the
      target and the flags of the request. */
  lemma MutationCall(req: ApplyRequest, gateway: ModeGateway)
    requires gateway.current.Some? && !SatisfiesRequest(req, gateway.current.value)
    ensures var run := ApplySpec(req, gateway);
      |run.calls| >= 2 &&
      run.calls[1] == ChangeDisplaySettingsEx(req.sourceName, Target(req, gateway.current.value),
                                              ChangeFlags(req.dryRun, req.persist))
  {
    NoChangeIffSatisfied(req, gateway.current.value);
  }

  /** A mutation that does not succeed is reported with its raw code and is
      neither retried nor followed by a re-read. */
  lemma RejectedOutcome(req: ApplyRequest, gateway: ModeGateway)
    requires gateway.current.Some? && !SatisfiesRequest(req, gateway.current.value)
    requires gateway.changeResult != DISP_CHANGE_SUCCESSFUL
    ensures var run := ApplySpec(req, gateway);
      && run.ok == false
      && run.result == ApplyResult(false, false, "apply failed (code=" + IntToString(gateway.changeResult as int) + ")")
      && |run.calls| == 2 && run.calls[1].ChangeDisplaySettingsEx?
  {
    NoChangeIffSatisfied(req, gateway.current.value);
  }

  /** Different rejection codes give different messages. */
  lemma RejectedMessagesDistinct(a: int32, b: int32)
    requires a != b
    ensures RejectedMessage(a) != RejectedMessage(b)
  {
    var prefix := "apply failed (code=";
    if RejectedMessage(a) == RejectedMessage(b) {
      var sa, sb := IntToString(a as int), IntToString(b as int);
      assert |prefix + sa + ")"| == |prefix + sb + ")"|;
      assert sa == (prefix + sa + ")")[|prefix|..|prefix| + |sa|];
      assert sb == (prefix + sb + ")")[|prefix|..|prefix| + |sb|];
      IntToStringInjective(a as int, b as int);
    }
  }

  /** A successful dry run reports validity, never a change, and never re-reads. */
  lemma DryRunOutcome(req: ApplyRequest, gateway: ModeGateway)
    requires req.dryRun
    requires gateway.current.Some? && !SatisfiesRequest(req, gateway.current.value)
    requires gateway.changeResult == DISP_CHANGE_SUCCESSFUL
    ensures var run := ApplySpec(req, gateway);
      run.ok && run.result == ApplyResult(true, false, "Valid (dry-run)") && |run.calls| == 2
  {
    NoChangeIffSatisfied(req, gateway.current.value);
  }

  /** A dry run never reports a change and makes at most the read and the test call. */
  lemma DryRunNeverChanges(req: ApplyRequest, gateway: ModeGateway)
    requires req.dryRun
    ensures !ApplySpec(req, gateway).result.changed
    ensures |ApplySpec(req, gateway).calls| <= 2
  {
  }

  /** A real run whose re-read fails is still reported as applied. */
  lemma UnverifiableOutcome(req: ApplyRequest, gateway: ModeGateway)
    requires !req.dryRun
    requires gateway.current.Some? && !SatisfiesRequest(req, gateway.current.value)
    requires gateway.changeResult == DISP_CHANGE_SUCCESSFUL && gateway.afterChange.None?
    ensures var run := ApplySpec(req, gateway);
      run.ok && run.result == ApplyResult(true, true, "Applied but could not verify") && |run.calls| == 3
  {
    NoChangeIffSatisfied(req, gateway.current.value);
  }

  /** A real run whose re-read succeeds is "Applied" exactly when the re-read
      mode satisfies the request, and a verification mismatch otherwise;
      `persist` plays no part. */
  lemma VerifiedOutcome(req: ApplyRequest, gateway: ModeGateway)
    requires !req.dryRun
    requires gateway.current.Some? && !SatisfiesRequest(req, gateway.current.value)
    requires gateway.changeResult == DISP_CHANGE_SUCCESSFUL && gateway.afterChange.Some?
    ensures var run := ApplySpec(req, gateway);
      && |run.calls| == 3 && run.calls[2] == EnumCurrentSettings(req.sourceName)
      && (run.ok <==> SatisfiesRequest(req, gateway.afterChange.value))
      && run.result == if SatisfiesRequest(req, gateway.afterChange.value)
                       then ApplyResult(true, true, "Applied")
                       else ApplyResult(false, false, "Verification mismatch after apply")
  {
    NoChangeIffSatisfied(req, gateway.current.value);
    VerifiedIffSatisfied(req, gateway.current.value, gateway.afterChange.value);
  }

  /** The persist flag changes only the flags passed to the mutation call,
      never the outcome. */
  lemma PersistDoesNotAffectOutcome(req: ApplyRequest, gateway: ModeGateway)
    ensures ApplySpec(req.(persist := true), gateway).ok == ApplySpec(req.(persist := false), gateway).ok
    ensures ApplySpec(req.(persist := true), gateway).result == ApplySpec(req.(persist := false), gateway).result
  {
  }

  /** Idempotence: after a verified real apply, applying the same request
      against the mode that was read back is a no-op. */
  lemma ReapplyIsNoOp(req: ApplyRequest, gateway: ModeGateway, next: ModeGateway)
    requires gateway.afterChange.Some?
    requires ApplySpec(req, gateway).result == ApplyResult(true, true, "Applied")
    requires next.current == gateway.afterChange
    ensures ApplySpec(req, next)
         == ApplyRun(true, ApplyResult(true, false, "Already in requested state"),
                     [EnumCurrentSettings(req.sourceName)])
  {
    var current := gateway.current.value;
    NoChangeIffSatisfied(req, current);
    VerifiedIffSatisfied(req, current, gateway.afterChange.value);
    NoOpOutcome(req, next);
  }
}
