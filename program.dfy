// The command-line entry point: choosing a display from the --display
// selector, and the dispatch from the parsed options to one of the listing
// flows or the apply flow, ending in the process exit code.

module Program {
  import opened Wrappers
  import opened Win32
  import opened CRuntime
  import opened DisplayConfig
  import opened Cli

  /** The GDI device-name prefix `\\.\DISPLAY`; a selector that starts with it
      is used as the source name unchanged. */
  const DISPLAY_PREFIX: string := "\\\\.\\DISPLAY"

  /** EXIT_FAILURE of the C runtime. */
  const EXIT_FAILURE: int := 1

  // ---------------------------------------------------------------- resolveSourceName

  /** The selector is all number: `strtol` converted something and stopped at the end. */
  predicate IsIndexSelector(sel: string) {
    |sel| > 0 && Strtol(sel).consumed == |sel|
  }

  /** The display's friendly name or its source name contains the selector. */
  predicate DisplayMatches(d: DisplayInfo, sel: string) {
    Contains(d.friendlyName, sel) || Contains(d.sourceName, sel)
  }

  /** The positions, in increasing order, of the displays the selector matches. */
  function MatchingIndices(sel: string, displays: seq<DisplayInfo>): (ix: seq<nat>)
    ensures forall n :: 0 <= n < |ix| ==> ix[n] < |displays| && DisplayMatches(displays[ix[n]], sel)
    ensures forall k :: 0 <= k < |displays| && DisplayMatches(displays[k], sel) ==> k in ix
    ensures forall n, m :: 0 <= n < m < |ix| ==> ix[n] < ix[m]
  {
    if |displays| == 0 then []
    else
      var last := |displays| - 1;
      var front := MatchingIndices(sel, displays[..last]);
      assert forall n :: 0 <= n < |front| ==> displays[..last][front[n]] == displays[front[n]];
      if DisplayMatches(displays[last], sel) then front + [last] else front
  }

  /** The matches among the first `n` displays are the first matches among all of them. */
  lemma {:induction false} MatchingIndicesPrefix(sel: string, displays: seq<DisplayInfo>, n: nat)
    requires n <= |displays|
    ensures MatchingIndices(sel, displays[..n]) <= MatchingIndices(sel, displays)
    decreases |displays|
  {
    if n < |displays| {
      var last := |displays| - 1;
      assert displays[..last][..n] == displays[..n];
      MatchingIndicesPrefix(sel, displays[..last], n);
    } else {
      assert displays[..n] == displays;
    }
  }

  /** The display a selector names among `displays`, if it names exactly one by substring. */
  function UniqueMatch(sel: string, displays: seq<DisplayInfo>): (r: Option<string>)
    ensures r.Some? <==> |MatchingIndices(sel, displays)| == 1
    ensures r.Some? ==> exists k :: 0 <= k < |displays| && DisplayMatches(displays[k], sel) && r.value == displays[k].sourceName
  {
    var ix := MatchingIndices(sel, displays);
    if |ix| == 1 then Some(displays[ix[0]].sourceName) else None
  }

  /** resolveSourceName as a function of the selector and of the active-path
      query that listDisplays makes.  None is a failed resolution. */
  function Resolution(sel: string, query: PathQuery): (r: Option<string>)
    ensures StartsWith(sel, DISPLAY_PREFIX) ==> r == Some(sel)
    ensures !StartsWith(sel, DISPLAY_PREFIX) && !query.Paths? ==> r.None?
    ensures !StartsWith(sel, DISPLAY_PREFIX) && r.Some? ==>
      exists k :: 0 <= k < |query.paths| && r.value == DisplayFromPath(query.paths[k]).sourceName
  {
    if StartsWith(sel, DISPLAY_PREFIX) then Some(sel)
    else match Catalog(query)
      case None => None
      case Some(displays) =>
        if IsIndexSelector(sel) then
          var idx := Strtol(sel).value;
          if idx < 0 || idx as int >= |displays| then None else Some(displays[idx].sourceName)
        else
          UniqueMatch(sel, displays)
  }

  /** The decimal form of a position in the catalog selects that display. */
  lemma ResolveByIndex(i: nat, query: PathQuery)
    requires query.Paths? && i < |query.paths| && i <= LONG_MAX
    ensures Resolution(IntToString(i), query) == Some(DisplayFromPath(query.paths[i]).sourceName)
  {
    var s := IntToString(i);
    StrtolOfIntToString(i);
    assert !StartsWith(s, DISPLAY_PREFIX) by { assert s[0] != DISPLAY_PREFIX[0]; }
  }

  /** Any selector that `strtol` reads completely is an index, whatever its
      form, and one in range selects the display at that position. */
  lemma ResolveByNumber(sel: string, query: PathQuery)
    requires !StartsWith(sel, DISPLAY_PREFIX) && IsIndexSelector(sel) && query.Paths?
    requires 0 <= Strtol(sel).value as int < |query.paths|
    ensures Resolution(sel, query) == Some(DisplayFromPath(query.paths[Strtol(sel).value]).sourceName)
  {
  }

  /** A numeric selector outside the catalog fails; it is never tried as a substring. */
  lemma IndexOutOfRangeFails(sel: string, query: PathQuery)
    requires !StartsWith(sel, DISPLAY_PREFIX) && IsIndexSelector(sel) && query.Paths?
    requires Strtol(sel).value < 0 || Strtol(sel).value as int >= |query.paths|
    ensures Resolution(sel, query).None?
  {
  }

  /** A non-numeric selector contained in the names of exactly one display selects it. */
  lemma UniqueSubstringResolves(sel: string, query: PathQuery, k: nat)
    requires !StartsWith(sel, DISPLAY_PREFIX) && !IsIndexSelector(sel) && query.Paths?
    requires k < |query.paths| && DisplayMatches(DisplayFromPath(query.paths[k]), sel)
    requires forall j :: 0 <= j < |query.paths| && j != k ==> !DisplayMatches(DisplayFromPath(query.paths[j]), sel)
    ensures Resolution(sel, query) == Some(DisplayFromPath(query.paths[k]).sourceName)
  {
    var displays := Catalog(query).value;
    var ix := MatchingIndices(sel, displays);
    assert k in ix;
    assert forall n :: 0 <= n < |ix| ==> ix[n] == k;
    assert ix[0] == ix[|ix| - 1];
  }

  /** A non-numeric selector that no display has in its names fails. */
  lemma MissingFails(sel: string, query: PathQuery)
    requires !StartsWith(sel, DISPLAY_PREFIX) && !IsIndexSelector(sel) && query.Paths?
    requires forall j :: 0 <= j < |query.paths| ==> !DisplayMatches(DisplayFromPath(query.paths[j]), sel)
    ensures Resolution(sel, query).None?
  {
    NoMatchesNoIndices(sel, Catalog(query).value);
  }

  lemma {:induction false} NoMatchesNoIndices(sel: string, displays: seq<DisplayInfo>)
    requires forall k :: 0 <= k < |displays| ==> !DisplayMatches(displays[k], sel)
    ensures MatchingIndices(sel, displays) == []
  {
    if |displays| > 0 {
      var front := displays[..|displays| - 1];
      assert forall k :: 0 <= k < |front| ==> front[k] == displays[k];
      NoMatchesNoIndices(sel, front);
    }
  }

  /** A non-numeric selector that two displays have in their names is ambiguous and fails. */
  lemma AmbiguousFails(sel: string, query: PathQuery, j: nat, k: nat)
    requires !StartsWith(sel, DISPLAY_PREFIX) && !IsIndexSelector(sel) && query.Paths?
    requires j < k < |query.paths|
    requires DisplayMatches(DisplayFromPath(query.paths[j]), sel) && DisplayMatches(DisplayFromPath(query.paths[k]), sel)
    ensures Resolution(sel, query).None?
  {
    var displays := Catalog(query).value;
    var ix := MatchingIndices(sel, displays);
    assert j in ix && k in ix;
    var n :| 0 <= n < |ix| && ix[n] == j;
    var m :| 0 <= m < |ix| && ix[m] == k;
    assert n != m;
  }

  /** The lambda in main: a device name is used as is, without listing the
      displays; an all-number selector indexes the catalog; anything else must
      be contained in the friendly or source name of exactly one display, the
      search stopping at a second match.  On failure `outSource` keeps the
      caller's value `prior`.  `listings` counts the calls of listDisplays. */
  method ResolveSourceName(sel: string, query: PathQuery, prior: string)
    returns (ok: bool, outSource: string, listings: nat)
    ensures ok <==> Resolution(sel, query).Some?
    ensures ok ==> outSource == Resolution(sel, query).value
    ensures !ok ==> outSource == prior
    ensures listings == if StartsWith(sel, DISPLAY_PREFIX) then 0 else 1
  {
    outSource := prior;
    listings := 0;
    if StartsWith(sel, DISPLAY_PREFIX) {
      outSource := sel;
      return true, outSource, listings;
    }

    var conversion := Strtol(sel);
    var idx := conversion.value;
    var displays: seq<DisplayInfo> := [];
    var err := "";
    var listed: bool;
    if |sel| > 0 && conversion.consumed == |sel| {
      listed, displays, err := ListDisplays(query, displays, err);
      listings := listings + 1;
      if !listed { return false, outSource, listings; }
      if idx < 0 || idx as int >= |displays| { return false, outSource, listings; }
      outSource := displays[idx].sourceName;
      return true, outSource, listings;
    }

    listed, displays, err := ListDisplays(query, displays, err);
    listings := listings + 1;
    if !listed { return false, outSource, listings; }
    var found := FindUniqueMatch(sel, displays);
    if found == -1 { return false, outSource, listings; }
    outSource := displays[found].sourceName;
    return true, outSource, listings;
  }

  /** The substring search of resolveSourceName: the position of the only
      display whose names contain `sel`, or -1 when there is none or the scan
      meets a second one. */
  method FindUniqueMatch(sel: string, displays: seq<DisplayInfo>) returns (found: int)
    ensures -1 <= found < |displays|
    ensures found == -1 <==> |MatchingIndices(sel, displays)| != 1
    ensures found >= 0 ==> MatchingIndices(sel, displays) == [found]
  {
    found := -1;
    var i := 0;
    while i < |displays|
      invariant 0 <= i <= |displays|
      invariant -1 <= found < i
      invariant found == -1 <==> MatchingIndices(sel, displays[..i]) == []
      invariant found >= 0 ==> MatchingIndices(sel, displays[..i]) == [found]
    {
      var d := displays[i];
      assert displays[..i + 1][..i] == displays[..i];
      if Contains(d.friendlyName, sel) || Contains(d.sourceName, sel) {
        if found != -1 {
          // ambiguous
          MatchingIndicesPrefix(sel, displays, i + 1);
          return -1;
        }
        found := i;
      }
      i := i + 1;
    }
    assert displays[..i] == displays;
  }

  // ---------------------------------------------------------------- main

  /** What the program sees of the machine: the active-path query, the mode
      enumeration of each source name, and the mode gateway of each source name. */
  datatype Platform = Platform(
    paths: PathQuery,
    modesOf: string -> seq<Option<DevMode>>,
    gatewayOf: string -> ModeGateway)

  /** The apply flow's request, built from the parsed options and the resolved source. */
  function RequestFor(a: Args, sourceName: string): (req: ApplyRequest)
    ensures req.sourceName == sourceName
    ensures req.width == a.width && req.height == a.height && req.hz == a.hz && req.orientation == a.orientation
    ensures req.persist == a.persist && req.dryRun == a.dryRun
  {
    ApplyRequest(sourceName, a.width, a.height, a.hz, a.orientation, a.persist, a.dryRun)
  }

  /** The options reach the apply flow but name no display or no change. */
  predicate UsageError(a: Args) {
    && !a.list && !(a.listModes && a.display != "")
    && (a.display == "" || (a.hz < 0 && a.width < 0 && a.height < 0 && a.orientation < 0))
  }

  /** The exit code of main for the command line `argv` on `platform`: 1 for
      an unparsable command line, 4 for a usage error, 3 for a display that
      cannot be resolved, 5 for a failed listing, 6 for a failed apply, 2 for
      a successful apply that changed nothing, and 0 otherwise. */
  function ExitCode(argv: seq<string>, hzOf: string -> Option<int32>, platform: Platform): (code: int)
    ensures code in {0, 1, 2, 3, 4, 5, 6}
    ensures code == EXIT_FAILURE <==> !ParseArgsSpec(argv, DefaultArgs, hzOf).ok
    ensures code == 4 <==> ParseArgsSpec(argv, DefaultArgs, hzOf).ok && UsageError(ParseArgsSpec(argv, DefaultArgs, hzOf).args)
  {
    var p := ParseArgsSpec(argv, DefaultArgs, hzOf);
    var a := p.args;
    if !p.ok then EXIT_FAILURE
    else if a.list || (a.listModes && a.display != "") then
      if a.list then
        if platform.paths.Paths? then 0 else 5
      else
        match Resolution(a.display, platform.paths)
        case None => 3
        case Some(source) => if ModesAvailable(platform.modesOf(source)) then 0 else 5
    else if a.display == "" || (a.hz < 0 && a.width < 0 && a.height < 0 && a.orientation < 0) then 4
    else
      match Resolution(a.display, platform.paths)
      case None => 3
      case Some(source) =>
        var run := ApplySpec(RequestFor(a, source), platform.gatewayOf(source));
        if !run.ok then 6
        else if run.result.success then (if run.result.changed then 0 else 2)
        else 6
  }

  /** main: parse the command line into a default-constructed record, then
      run the listing flow or the apply flow. */
  method Run(argv: seq<string>, hzOf: string -> Option<int32>, platform: Platform) returns (code: int)
    ensures code == ExitCode(argv, hzOf, platform)
  {
    var parsed, a := ParseArgs(argv, DefaultArgs, hzOf);
    if !parsed {
      return EXIT_FAILURE;
    }

    if a.list || (a.listModes && a.display != "") {
      if a.list {
        var listed, displays, err := ListDisplays(platform.paths, [], "");
        if !listed {
          return 5;
        }
        return 0;
      }

      if a.listModes {
        var resolved, sourceName, _ := ResolveSourceName(a.display, platform.paths, a.display);
        if !resolved {
          return 3;
        }
        var listed, modes, err := ListModes(sourceName, platform.modesOf(sourceName), "");
        if !listed {
          return 5;
        }
        return 0;
      }
    }

    if a.display == "" || (a.hz < 0 && a.width < 0 && a.height < 0 && a.orientation < 0) {
      return 4;
    }

    var resolved, sourceName, _ := ResolveSourceName(a.display, platform.paths, "");
    if !resolved {
      return 3;
    }

    var req := ApplyRequest(sourceName, a.width, a.height, a.hz, a.orientation, a.persist, a.dryRun);
    var applied, res, calls := ApplyMode(req, platform.gatewayOf(sourceName));
    if !applied {
      return 6;
    }
    return if res.success then (if res.changed then 0 else 2) else 6;
  }

  // ---------------------------------------------------------------- exit-code properties

  /** Exit code 4 depends on the command line alone, never on the machine. */
  lemma UsageErrorIndependentOfPlatform(argv: seq<string>, hzOf: string -> Option<int32>, p: Platform, q: Platform)
    ensures ExitCode(argv, hzOf, p) == 4 <==> ExitCode(argv, hzOf, q) == 4
  {
  }

  /** A successful apply always exits 0 or 2: the final `6` of main is unreachable. */
  lemma ApplySuccessExitCodes(argv: seq<string>, hzOf: string -> Option<int32>, platform: Platform)
    requires var p := ParseArgsSpec(argv, DefaultArgs, hzOf);
      p.ok && !p.args.list && !(p.args.listModes && p.args.display != "") && !UsageError(p.args)
    requires Resolution(ParseArgsSpec(argv, DefaultArgs, hzOf).args.display, platform.paths).Some?
    ensures var a := ParseArgsSpec(argv, DefaultArgs, hzOf).args;
      var source := Resolution(a.display, platform.paths).value;
      var run := ApplySpec(RequestFor(a, source), platform.gatewayOf(source));
      && (ExitCode(argv, hzOf, platform) == 6 <==> !run.ok)
      && (ExitCode(argv, hzOf, platform) == 0 <==> run.ok && run.result.changed)
      && (ExitCode(argv, hzOf, platform) == 2 <==> run.ok && !run.result.changed)
  {
  }

  /** A dry run that reaches the apply flow never exits 0: it either validates (2) or fails. */
  lemma DryRunNeverExitsZero(argv: seq<string>, hzOf: string -> Option<int32>, platform: Platform)
    requires var p := ParseArgsSpec(argv, DefaultArgs, hzOf);
      p.ok && p.args.dryRun && !p.args.list && !(p.args.listModes && p.args.display != "")
    ensures ExitCode(argv, hzOf, platform) in {2, 3, 4, 6}
  {
    var a := ParseArgsSpec(argv, DefaultArgs, hzOf).args;
    var r := Resolution(a.display, platform.paths);
    if !UsageError(a) && r.Some? {
      DryRunNeverChanges(RequestFor(a, r.value), platform.gatewayOf(r.value));
    }
  }

  /** --list exits 0 exactly when the active-path query succeeds, whatever else was given. */
  lemma ListExitCode(argv: seq<string>, hzOf: string -> Option<int32>, platform: Platform)
    requires ParseArgsSpec(argv, DefaultArgs, hzOf).ok && ParseArgsSpec(argv, DefaultArgs, hzOf).args.list
    ensures ExitCode(argv, hzOf, platform) == if platform.paths.Paths? then 0 else 5
  {
  }

  /** --list-modes with a display and without --list exits 0 when the mode
      enumeration of the resolved source yields at least one mode, else 5. */
  lemma ListModesExitCode(argv: seq<string>, hzOf: string -> Option<int32>, platform: Platform)
    requires var p := ParseArgsSpec(argv, DefaultArgs, hzOf);
      p.ok && !p.args.list && p.args.listModes && p.args.display != ""
    requires Resolution(ParseArgsSpec(argv, DefaultArgs, hzOf).args.display, platform.paths).Some?
    ensures var source := Resolution(ParseArgsSpec(argv, DefaultArgs, hzOf).args.display, platform.paths).value;
      ExitCode(argv, hzOf, platform) == if ModesAvailable(platform.modesOf(source)) then 0 else 5
  {
  }

  /** A display selector that cannot be resolved exits 3 in both flows that need one. */
  lemma UnresolvedDisplayExitsThree(argv: seq<string>, hzOf: string -> Option<int32>, platform: Platform)
    requires var p := ParseArgsSpec(argv, DefaultArgs, hzOf);
      p.ok && !p.args.list && !UsageError(p.args) && Resolution(p.args.display, platform.paths).None?
    ensures ExitCode(argv, hzOf, platform) == 3
  {
  }

  /** --list-modes without --display is not a listing: it falls through to the
      apply flow, where the missing display is a usage error. */
  lemma ListModesNeedsDisplay(argv: seq<string>, hzOf: string -> Option<int32>, platform: Platform)
    requires var p := ParseArgsSpec(argv, DefaultArgs, hzOf);
      p.ok && !p.args.list && p.args.listModes && p.args.display == ""
    ensures ExitCode(argv, hzOf, platform) == 4
  {
  }
}
