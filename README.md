# windows-display-mode-cli — a Dafny model of the decision logic

`displaymode` is a Windows command-line tool. It lists the active displays and
the modes of one display. It changes a display's resolution, refresh rate or
orientation, optionally as a dry run (`CDS_TEST`) or persisted to the registry
(`CDS_UPDATEREGISTRY`). This project models the tool's decision logic and
proves properties of it:

- the command-line parser (`parseArgs`, `parseInt`, `parseOrientationToken`);
- the `--display` selector resolution and the exit-code dispatch of `main`;
- the apply/verify procedure `applyMode`, with `listModes` and `listDisplays`;
- the adapter helpers `getAdapterByIndex` and `setRefreshHz`;
- the code tables `changeResultToText` and `dmOrientationToString`.

Every Win32 call is replaced by the answer it gives:

- A read of the current mode, the result code of `ChangeDisplaySettingsExA`,
  and the re-read after a change form a `ModeGateway`.
- An enumeration (`EnumDisplaySettingsA` by index, `EnumDisplayDevicesA` by
  index) is a `seq<Option<T>>`. Element `i` answers index `i`; `None`, or an
  index past the end, is a failing call.
- The active-path query of `listDisplays` is a `PathQuery`: one of the two
  calls fails, or the paths come back together with the results of their
  name look-ups.
- `ApplyMode` and `SetRefreshHz` also return the trace of the display-settings
  calls they make (`seq<GdiCall>`), so "no mutation call", "called once" and
  "no re-read" can be stated. `ResolveSourceName` counts its `listDisplays`
  calls. `ListModes`, `ListDisplays` and `GetAdapterByIndex` return no trace:
  the two enumerations' `ensures` say which indices they read (up to the
  first failure), and those of `ListDisplays` say which query call failed.

Files and modules:

| file | module | models |
|---|---|---|
| `wrappers.dfy` | `Wrappers` | `Option` |
| `win32.dfy` | `Win32` | `int`/`LONG` and `DWORD` as `int32`/`uint32`, the DMDO_*, DISP_CHANGE_*, CDS_* and DM_* constants, `DEVMODEA`, the gateway, the call trace |
| `crt.dfy` | `CRuntime` | `strtol` in base 10 with `long` = 32 bits, `operator<<` for integers, `std::string::find`, `rfind(prefix, 0) == 0` |
| `util.dfy` | `Util` | `dmOrientationToString` |
| `windows_display.dfy` | `WindowsDisplay` | `changeResultToText`, `getAdapterByIndex`, `setRefreshHz` |
| `display_config.dfy` | `DisplayConfig` | `listDisplays`, `listModes`, `applyMode` |
| `cli.dfy` | `Cli` | `Args` and its defaults, `parseInt`, `parseOrientationToken`, `parseArgs` |
| `program.dfy` | `Program` | `resolveSourceName` and `main` |

The procedures that the source writes step by step are methods: `ApplyMode`,
`ListModes`, `ListDisplays`, `ParseArgs`, `ResolveSourceName`,
`GetAdapterByIndex`, `SetRefreshHz` and `Run`. The enumerations
(`ListModes`, `ListDisplays`, `GetAdapterByIndex`), the parse loop
(`ParseArgs`) and the match scan (`FindUniqueMatch`, called by
`ResolveSourceName`) are loops with invariants. Each method is proved
equal to a specification function, or its `ensures` states its result
outright:

- `ApplyMode` equals `ApplySpec`.
- `ParseArgs` equals `ParseArgsSpec`, a recursion over the tokens.
- `ResolveSourceName` equals `Resolution`.
- `Run` (main) equals `ExitCode`.

The properties are lemmas about those functions.

Some choices follow the code:

- An empty display list is a successful listing.
- Width and height are merged independently, with no pairing check.
- A re-read that fails after a successful change still reports
  `changed = true` ("Applied but could not verify").
- `applyMode` reports the raw result code ("apply failed (code=r)") and does
  not use `changeResultToText`.
- Modes are neither sorted nor de-duplicated.
- `--list-modes` without `--display` is not a listing. It falls through to
  the apply flow and exits 4 there.

Two conventions from the code should be noted. An unparsable `--hz` value makes
the whole parse fail, because `strtod` converted nothing. Trailing text after a
number is accepted for `--hz` but rejected for `--width` and `--height`.

## Model

| member | source | states |
|---|---|---|
| Win32.ToUint32 | src/windows_display.cpp:81 | the `int`→`DWORD` store wraps modulo 2^32 and keeps non-negative values |
| Win32.ToInt32 | src/display_config.cpp:69-73 | the `DWORD`→`int` cast keeps the 32 bits: equal modulo 2^32, and equal outright below 2^31 |
| Win32.ToInt32OfToUint32 | src/windows_display.cpp:81 | storing the `int` rate in the `DWORD` field loses nothing: casting it back gives the same value, negative values included |
| Win32.ChangeCount | src/display_config.cpp:116 | counts the mutation calls of a trace; zero exactly when the trace has no `ChangeDisplaySettingsExA` |
| CRuntime.Strtol | src/cli.cpp:13-15 | the characters `strtol` consumes end in a digit; no conversion means value 0 and `end == s` (with StrtolNoDigits, the lemmas below fix the result for every string: white space, an optional sign, digits, then anything else) |
| CRuntime.StrtolNoDigits | src/cli.cpp:14-15 | when no digit follows the white space and the optional sign, nothing is converted: value 0 and `end == s` |
| CRuntime.StrtolSkipsSpaces | src/cli.cpp:14 | any leading white space is skipped: the rest converts to the same value, and the white space is consumed with it when there is a conversion |
| CRuntime.StrtolOfDigits | src/cli.cpp:14 | a run of digits is read completely, with its decimal value clamped to `long` |
| CRuntime.StrtolOfSignedDigits | src/cli.cpp:14 | a `+` or `-` before a run of digits is accepted and everything is read; the value is the digits' value, negated after `-`, clamped to `long` |
| CRuntime.StrtolStopsAtNonDigit | src/cli.cpp:14-15 | text after a complete conversion that does not start with a digit changes neither the value nor where `strtol` stops |
| CRuntime.LeadingZeroValue | src/cli.cpp:14 | a leading zero adds nothing to the value of a run of digits |
| CRuntime.StrtolOfZeroDigits | src/cli.cpp:14 | a leading zero before a run of digits is read and does not change the value |
| CRuntime.ClampLong | src/cli.cpp:14 | a value in `long` range is kept; beyond it `strtol` saturates at LONG_MAX or LONG_MIN |
| CRuntime.IntToString | src/display_config.cpp:119 | the printed form is non-empty and starts with a digit, or with '-' for a negative value; there is no leading zero: a first '0' means the value is 0, and after '-' the first digit is not '0' |
| CRuntime.StrtolOfIntToString | src/cli.cpp:14 | `strtol` reads back all of what `operator<<` prints for an integer, with the value clamped to `long` |
| CRuntime.IntToStringInjective | src/display_config.cpp:119 | two `long` values that print alike are equal |
| CRuntime.NatToDecimal | src/display_config.cpp:119 | printed digits are all digits, with no leading zero, and their decimal value is the number printed |
| CRuntime.ContainsIff | src/main.cpp:39 | `find(sel) != npos` holds exactly when `sel` occurs at some position |
| Util.DmOrientationToString | src/util.h:29-37 | each DMDO value has its name, and only that value has it; every other value gives "unknown", so the function is total |
| WindowsDisplay.ChangeResultToText | src/windows_display.cpp:29-52 | each of the eight DISP_CHANGE codes has its text, each text belongs to that code only, and every other code gives "unknown error" |
| WindowsDisplay.ChangeResultTextsDistinct | src/windows_display.cpp:31-48 | distinct named codes give distinct texts |
| WindowsDisplay.GetAdapterByIndex | src/windows_display.cpp:6-27 | succeeds iff the index is non-negative and enumeration reaches it before its first failing call; returns that device, or a zeroed record on failure |
| WindowsDisplay.SetRefreshHz | src/windows_display.cpp:69-90 | a failed read gives "could not read current display mode" and no mutation; otherwise exactly one mutation: the current mode with the frequency set to `hz` and only DM_DISPLAYFREQUENCY in the mask, with CDS_UPDATEREGISTRY; success iff the code is DISP_CHANGE_SUCCESSFUL; a failure message is `changeResultToText(r)` |
| DisplayConfig.DisplayFromPath | src/display_config.cpp:50-57 | a path is primary iff its source is in use and has id 0; the id is the target adapter and target; each name is what its look-up returned, or empty when the look-up failed |
| DisplayConfig.Catalog | src/display_config.cpp:38-60 | listing succeeds iff both queries succeed, with one display per path, in path order; no paths is a successful empty list |
| DisplayConfig.ListDisplays | src/display_config.cpp:38-60 | the loop builds the catalog; each failing query has its own message and leaves `out` untouched |
| DisplayConfig.EmptyCatalogIsSuccess | src/display_config.cpp:47-59 | no active path is a successful, empty listing |
| DisplayConfig.ModeFromDevMode | src/display_config.cpp:68-73 | each of the five fields keeps the 32 bits of its `DWORD`, so values below 2^31 are kept exactly |
| DisplayConfig.ListModes | src/display_config.cpp:62-81 | one mode per successful index, in order, stopping at the first failure; success iff at least one mode; the failure message names the source |
| DisplayConfig.Target | src/display_config.cpp:92-97 | a mask bit is set iff its field is supplied (sizes and rate > 0, orientation ≥ 0) and no other bit is set; supplied fields take the request's values; every other field equals the current mode's |
| DisplayConfig.ChangeFlags | src/display_config.cpp:112-114 | CDS_TEST iff dry run, CDS_UPDATEREGISTRY iff persist, independently, and no other flag |
| DisplayConfig.ApplySpec | src/display_config.cpp:83-149 | on every path the return value equals `success`; `changed` implies success and not a dry run; the first call is the read; at most one mutation, made exactly when the current mode was read and a masked field differs |
| DisplayConfig.OverlayRequest | src/display_config.cpp:92-97 | the step-by-step overlay builds `Target` |
| DisplayConfig.CompareMaskedFields | src/display_config.cpp:100-104 | the accumulated check is "every masked field agrees" |
| DisplayConfig.ApplyMode | src/display_config.cpp:83-149 | the imperative procedure returns exactly `ApplySpec`'s flag, result and call trace |
| DisplayConfig.NoChangeIffSatisfied | src/display_config.cpp:99-105 | no masked field differs iff the current mode already has every supplied value |
| DisplayConfig.VerifiedIffSatisfied | src/display_config.cpp:134-139 | the re-read agrees on every masked field iff it has every supplied value |
| DisplayConfig.ReadFailureOutcome | src/display_config.cpp:84-90 | a failed read returns false with false/false/"Failed to read current settings" after that single call |
| DisplayConfig.NoOpOutcome | src/display_config.cpp:99-110 | a request already satisfied returns true with true/false/"Already in requested state" and makes no mutation call |
| DisplayConfig.EmptyRequestIsNoOp | src/display_config.cpp:92-110 | with no field supplied the mask is empty and the call is a no-op |
| DisplayConfig.MutationCall | src/display_config.cpp:112-116 | when a change is needed, the second call is the mutation with the target and the request's flags |
| DisplayConfig.RejectedOutcome | src/display_config.cpp:116-122 | a code other than DISP_CHANGE_SUCCESSFUL returns false with "apply failed (code=r)", with no retry and no re-read |
| DisplayConfig.RejectedMessagesDistinct | src/display_config.cpp:118-120 | different codes give different rejection messages |
| DisplayConfig.DryRunOutcome | src/display_config.cpp:124-125 | a successful dry run returns true with true/false/"Valid (dry-run)" and never re-reads |
| DisplayConfig.DryRunNeverChanges | src/display_config.cpp:145-147 | a dry run never reports a change and makes at most two calls |
| DisplayConfig.UnverifiableOutcome | src/display_config.cpp:128-133 | a real run whose re-read fails returns true with true/true/"Applied but could not verify" |
| DisplayConfig.VerifiedOutcome | src/display_config.cpp:134-147 | after a successful re-read the result is "Applied" (true/true) iff the re-read has every supplied value, else false with "Verification mismatch after apply" |
| DisplayConfig.PersistDoesNotAffectOutcome | src/display_config.cpp:112-147 | `persist` changes only the flags passed on, never the return value or the result |
| DisplayConfig.ReapplyIsNoOp | src/display_config.cpp:99-147 | after a verified apply, applying the same request to the mode read back is a no-op with no mutation call |
| Cli.ParseInt | src/cli.cpp:9-19 | null fails; success iff `strtol` converted at least one character and stopped at the end; the value is `strtol`'s |
| Cli.ParseIntOfIntToString | src/cli.cpp:9-19 | parseInt reads back the decimal form of every `int` |
| Cli.ParseIntExamples | src/cli.cpp:13-16 | "" and "-" are rejected; leading white space and a sign are accepted (" +7" is 7) |
| Cli.ParseOrientationToken | src/cli.cpp:39-52 | each of the four names maps exactly and case-sensitively to its DMDO value and only it does; anything else, including null, gives -1 |
| Cli.OrientationRoundTrip | src/util.h:29-37 | parsing the printed name gives back the value iff it is DMDO_DEFAULT or DMDO_90; the flipped names parse to -1 |
| Cli.ParseStep | src/cli.cpp:62-143 | an accepted token advances by two for a value option and by one for a flag, never past the end, and keeps the program name |
| Cli.SetFlag | src/cli.cpp:63-97 | a flag token sets its own flag and changes no other field |
| Cli.StoreValue | src/cli.cpp:99-140 | a value option changes only its own field, and stores there the converted value (parseInt for sizes, the rounded strtod for the rate, parseOrientationToken for the orientation, the text itself for the display); it fails exactly when its value does not convert |
| Cli.ParseFrom | src/cli.cpp:60-146 | the parse from token `i` to the end keeps the program name |
| Cli.ParseArgsSpec | src/cli.cpp:54-58 | `program` is argv[0], or "displaymode" without one; `argc <= 1` fails |
| Cli.ParseToken | src/cli.cpp:62-143 | the loop body's `strcmp` cascade does exactly one parse step |
| Cli.ParseValueOption | src/cli.cpp:99-140 | the value branches of the loop body store the converted value, or reject and leave the record as it was |
| Cli.ParseArgs | src/cli.cpp:54-147 | the imperative loop, which advances `i` inside its body, returns exactly `ParseArgsSpec` |
| Cli.StepTouchesOnlyItsField | src/cli.cpp:62-143 | one step changes at most the field its token names, and a rejected step changes nothing |
| Cli.StepSetsFlags | src/cli.cpp:63-97 | one step sets a flag iff its token is that flag, and never clears one |
| Cli.FlagsOnlySet | src/cli.cpp:60-144 | a parse never clears a flag that was set |
| Cli.UnmentionedFlagsKept | src/cli.cpp:60-144 | a flag whose token never occurs keeps its value |
| Cli.UnmentionedValuesKept | src/cli.cpp:60-144 | an option whose token never occurs leaves its field as it was |
| Cli.DefaultsKept | src/cli.h:8-28 | from a default-constructed record, options never mentioned keep their defaults: the -1 sentinels, an empty display, every flag off |
| Cli.ParseAppend | src/cli.cpp:60-146 | parsing more tokens after a successful parse continues from the record it produced |
| Cli.AppendFlag | src/cli.cpp:63-97 | a flag token after a successful parse succeeds and sets exactly that flag |
| Cli.RepeatedFlagHarmless | src/cli.cpp:63-97 | a repeated flag changes nothing |
| Cli.SetFlagIdempotent | src/cli.cpp:63-97 | setting a flag twice is setting it once |
| Cli.AppendValueOption | src/cli.cpp:99-140 | an option with a value after a successful parse takes the step `StoreValue` describes, so its converted value replaces any earlier one, or the parse fails |
| Cli.LaterWidthOverwrites | src/cli.cpp:104-112 | a later `--width` replaces an earlier one |
| Cli.TrailingValueOptionFails | src/cli.cpp:99-143 | a value option that is the last token falls through to the unknown-token branch and fails |
| Cli.BadTokenRejected | src/cli.cpp:104-143 | an unknown token, an unparsable width or height, or an unknown orientation name fails at once, leaving the record as it was |
| Program.MatchingIndices | src/main.cpp:36-43 | the positions of exactly the displays whose friendly or source name contains the selector, in increasing order |
| Program.MatchingIndicesPrefix | src/main.cpp:37-40 | the matches among the first n displays are the first matches of the whole list, so a second match seen early means ambiguity |
| Program.UniqueMatch | src/main.cpp:36-46 | resolves iff exactly one display matches, to a matching display's source name |
| Program.Resolution | src/main.cpp:19-47 | a selector with the `\\.\DISPLAY` prefix resolves to itself; otherwise a failed listing fails; any result is some listed display's source name |
| Program.ResolveByIndex | src/main.cpp:24-33 | the decimal form of a position in the list selects that display |
| Program.ResolveByNumber | src/main.cpp:24-33 | any selector without the prefix that `strtol` reads completely (" 1", "+1", "01" as well as "1") selects the display at the position it names, when that position is in range |
| Program.IndexOutOfRangeFails | src/main.cpp:28-30 | a numeric selector outside [0, size) fails and is never tried as a substring |
| Program.UniqueSubstringResolves | src/main.cpp:35-46 | a non-numeric selector matching exactly one display resolves to its source name |
| Program.MissingFails | src/main.cpp:44 | a selector that matches no display fails |
| Program.NoMatchesNoIndices | src/main.cpp:36-43 | with no matching display the match list is empty |
| Program.AmbiguousFails | src/main.cpp:40 | a selector that two displays match fails |
| Program.ResolveSourceName | src/main.cpp:19-47 | the lambda returns exactly `Resolution`; on failure `outSource` keeps the caller's value; listDisplays is called exactly once when the selector lacks the prefix, and never when it has it |
| Program.FindUniqueMatch | src/main.cpp:36-44 | the scan, with its early return on a second match, finds the one match or reports none or ambiguity |
| Program.RequestFor | src/main.cpp:142-149 | the request copies the source name and every mode field and flag from the parsed options |
| Program.ExitCode | src/main.cpp:10-176 | the code is one of 0–6; it is EXIT_FAILURE iff parsing fails, and 4 iff the options reach the apply flow with no display or no field |
| Program.Run | src/main.cpp:10-176 | main's branch cascade over the parser, the listings, resolution and the apply procedure returns exactly `ExitCode` |
| Program.UsageErrorIndependentOfPlatform | src/main.cpp:129-133 | exit code 4 is decided by the command line alone, before any resolution |
| Program.ApplySuccessExitCodes | src/main.cpp:152-175 | in the apply flow a false return exits 6, a change exits 0, no change exits 2; the final 6 is unreachable |
| Program.DryRunNeverExitsZero | src/main.cpp:129-175 | a dry run that reaches the apply flow exits 2, 3, 4 or 6, never 0 |
| Program.ListExitCode | src/main.cpp:50-84 | `--list` takes precedence and exits 0 iff listing succeeds, else 5 |
| Program.ListModesExitCode | src/main.cpp:86-124 | `--list-modes` with a resolved display exits 0 iff at least one mode is enumerated, else 5 |
| Program.UnresolvedDisplayExitsThree | src/main.cpp:86-140 | a selector that cannot be resolved, including after a failed listing, exits 3 in both flows |
| Program.ListModesNeedsDisplay | src/main.cpp:50-133 | `--list-modes` without `--display` is a usage error, exit 4 |

## Left out

- The Win32 calls (`GetDisplayConfigBufferSizes`, `QueryDisplayConfig`, `DisplayConfigGetDeviceInfo`, `EnumDisplaySettingsA`, `ChangeDisplaySettingsExA`, `EnumDisplayDevicesA`) are not modelled as behaviour. They are inputs. Whether `CDS_TEST` really leaves the display unchanged is a property of the platform.
- The calls to listDisplays in one run of main all see the same `PathQuery` answer. Displays that change between calls are not modelled.
- The wide-to-UTF-8 conversions (`getTargetFriendlyName`, `getSourceDeviceName`, `to_utf8`) are foreign calls. A name look-up is `Option<string>`, and a failed one leaves an empty name.
- `--hz` is converted with `strtod` and rounded in `double`. Floating point is out of scope, so the conversion is the parameter `hzOf` (`None` when `strtod` converts nothing). The undefined cast of an out-of-range `double` is not modelled.
- The JSON and text output, the `usage` text and `printMonitors` only write to the console and are not modelled. Nor are the messages printed to `std::cerr`. `--quiet`, `--json` and `--verbose` are parsed, but their effect on output is not modelled.
- `LUID` and `DisplayId` are opaque identities. Their fields are kept but never interpreted.
- Strings are sequences of characters with no NUL terminator. A C argument that contains NUL, and a null `argv[0]` with `argc >= 1`, cannot be expressed. Only a missing `argv[0]` gives "displaymode".
- Strings are compared character by character. The source compares bytes: `argv` is in the ANSI code page, while display names are converted to UTF-8. So a non-ASCII selector can match a name in the model that it does not match byte for byte in the source.
- `int` and `LONG` are 32 bits, as on Windows. A `long` wider than 32 bits would change `strtol`'s clamping, and that case is not modelled.
- `DEVMODEA` keeps only the fields the tool reads or writes: `dmFields`, `dmBitsPerPel`, `dmPelsWidth`, `dmPelsHeight`, `dmDisplayFrequency` and `dmDisplayOrientation`.
