/** The command-line parser of `cli.cpp`: a token-by-token pass over `argv`
    into the `Args` record of `cli.h`. */
module Cli {
  import opened Wrappers
  import opened Win32
  import opened CRuntime
  import opened Util

  /** The parsed command line; the defaults are the -1 sentinels and false. */
  datatype Args = Args(
    program: string,
    list: bool, listModes: bool,
    display: string,
    width: int32, height: int32, hz: int32, orientation: int32,
    persist: bool, dryRun: bool, json: bool, verbose: bool, quiet: bool)

  /** A default-constructed `Args`. */
  const DefaultArgs := Args("", false, false, "", -1, -1, -1, -1, false, false, false, false, false)

  /** The program name used when `argv[0]` is missing. */
  const DefaultProgram := "displaymode"

  /** parseInt: `strtol` in base 10 must convert at least one character and stop
      at the end of the string; None is a null pointer. */
  function ParseInt(s: Option<string>): (v: Option<int32>)
    ensures s.None? ==> v.None?
    ensures v.Some? <==> s.Some? && Strtol(s.value).consumed > 0 && Strtol(s.value).consumed == |s.value|
    ensures v.Some? ==> v.value == Strtol(s.value).value
  {
    match s
    case None => None
    case Some(str) =>
      var c := Strtol(str);
      if c.consumed == 0 || c.consumed != |str| then None else Some(c.value)
  }

  /** parseInt reads back the decimal form of every `int`. */
  lemma ParseIntOfIntToString(v: int32)
    ensures ParseInt(Some(IntToString(v as int))) == Some(v)
  {
    StrtolOfIntToString(v as int);
  }

  /** parseInt accepts leading white space and a sign, and rejects the empty
      string, a bare sign and trailing characters. */
  lemma ParseIntExamples()
    ensures ParseInt(Some("")) == None
    ensures ParseInt(Some("-")) == None
    ensures ParseInt(Some(" +7")) == Some(7)
  {
    assert LeadingSpaces("-") == 0;
    assert "-"[1..] == "";
    assert " +7"[1..] == "+7";
    assert LeadingSpaces(" +7") == 1;
    assert " +7"[1..][1..] == "7";
    assert "7"[1..] == "";
    assert DigitRun("7") == 1;
    assert "7"[0..1] == "7";
    assert DigitsValue("7") == 7 by { assert "7"[..0] == ""; }
  }

  /** parseOrientationToken: the four names, exactly and case-sensitively, to
      DMDO_DEFAULT/90/180/270; anything else, including null, to -1. */
  function ParseOrientationToken(token: Option<string>): (o: int32)
    ensures o as int == DMDO_DEFAULT <==> token == Some("landscape")
    ensures o as int == DMDO_90 <==> token == Some("portrait")
    ensures o as int == DMDO_180 <==> token == Some("landscape_flipped")
    ensures o as int == DMDO_270 <==> token == Some("portrait_flipped")
    ensures o == -1 || 0 <= o as int <= DMDO_270
  {
    match token
    case None => -1
    case Some(t) =>
      if t == "landscape" then DMDO_DEFAULT as int32
      else if t == "portrait" then DMDO_90 as int32
      else if t == "landscape_flipped" then DMDO_180 as int32
      else if t == "portrait_flipped" then DMDO_270 as int32
      else -1
  }

  /** The printed orientation name parses back only for DMDO_DEFAULT and
      DMDO_90: the flipped names are printed with hyphens but parsed with
      underscores. */
  lemma OrientationRoundTrip(o: uint32)
    ensures ParseOrientationToken(Some(DmOrientationToString(o))) as int == o as int
        <==> o as int == DMDO_DEFAULT || o as int == DMDO_90
    ensures o as int == DMDO_180 || o as int == DMDO_270 ==>
      ParseOrientationToken(Some(DmOrientationToString(o))) == -1
  {
  }

  /** The tokens parseArgs recognises, in the order it compares them. */
  datatype Token =
    | ListFlag | ListModesFlag | PersistFlag | DryRunFlag | JsonFlag | VerboseFlag | QuietFlag
    | DisplayOption | WidthOption | HeightOption | HzOption | OrientationOption
    | UnknownToken

  /** The `strcmp` comparisons of one token against the option names. */
  function Recognize(t: string): Token {
    if t == "--list" then ListFlag
    else if t == "--list-modes" then ListModesFlag
    else if t == "--persist" then PersistFlag
    else if t == "--dry-run" then DryRunFlag
    else if t == "--json" then JsonFlag
    else if t == "--verbose" then VerboseFlag
    else if t == "--quiet" then QuietFlag
    else if t == "--display" then DisplayOption
    else if t == "--width" then WidthOption
    else if t == "--height" then HeightOption
    else if t == "--hz" then HzOption
    else if t == "--orientation" then OrientationOption
    else UnknownToken
  }

  /** The options that are followed by a value. */
  predicate TakesValue(k: Token) {
    k.DisplayOption? || k.WidthOption? || k.HeightOption? || k.HzOption? || k.OrientationOption?
  }

  /** What one iteration of the loop does with the token at `i`. */
  datatype Step = Advance(args: Args, next: nat) | Reject(args: Args)

  /** One iteration of the parse loop at token `i`: a flag sets its field; an
      option that has a following token consumes it; an option that is the
      last token, and any other token, rejects.  `hzOf` stands for the
      `strtod`-and-round conversion of a `--hz` value (None when `strtod`
      converts nothing). */
  function ParseStep(argv: seq<string>, i: nat, a: Args, hzOf: string -> Option<int32>): (step: Step)
    requires 1 <= i < |argv|
    ensures step.Advance? ==> step.next == if TakesValue(Recognize(argv[i])) then i + 2 else i + 1
    ensures step.Advance? ==> step.next <= |argv|
    ensures step.args.program == a.program
  {
    StepOn(Recognize(argv[i]), argv, i, a, hzOf)
  }

  /** The switches that take no value. */
  predicate IsFlag(k: Token) {
    k.ListFlag? || k.ListModesFlag? || k.PersistFlag? || k.DryRunFlag? || k.JsonFlag? || k.VerboseFlag? || k.QuietFlag?
  }

  /** The same options, apart from the flags. */
  predicate SameValues(a: Args, b: Args) {
    a.program == b.program && a.display == b.display && a.width == b.width && a.height == b.height
    && a.hz == b.hz && a.orientation == b.orientation
  }

  /** The same flags. */
  predicate SameFlags(a: Args, b: Args) {
    a.list == b.list && a.listModes == b.listModes && a.persist == b.persist && a.dryRun == b.dryRun
    && a.json == b.json && a.verbose == b.verbose && a.quiet == b.quiet
  }

  /** A flag token sets its own field to true and touches nothing else. */
  function SetFlag(a: Args, k: Token): (r: Args)
    requires IsFlag(k)
    ensures SameValues(r, a)
    ensures r.list == (a.list || k == ListFlag) && r.listModes == (a.listModes || k == ListModesFlag)
    ensures r.persist == (a.persist || k == PersistFlag) && r.dryRun == (a.dryRun || k == DryRunFlag)
    ensures r.json == (a.json || k == JsonFlag) && r.verbose == (a.verbose || k == VerboseFlag)
    ensures r.quiet == (a.quiet || k == QuietFlag)
  {
    match k
    case ListFlag => a.(list := true)
    case ListModesFlag => a.(listModes := true)
    case PersistFlag => a.(persist := true)
    case DryRunFlag => a.(dryRun := true)
    case JsonFlag => a.(json := true)
    case VerboseFlag => a.(verbose := true)
    case QuietFlag => a.(quiet := true)
  }

  /** A value option stores its converted value in its own field, or fails
      when the value does not convert; nothing else changes. */
  function StoreValue(a: Args, k: Token, value: string, hzOf: string -> Option<int32>): (r: Option<Args>)
    requires TakesValue(k)
    ensures r.Some? ==> SameFlags(r.value, a) && r.value.program == a.program
    ensures r.Some? && k != DisplayOption ==> r.value.display == a.display
    ensures r.Some? && k != WidthOption ==> r.value.width == a.width
    ensures r.Some? && k != HeightOption ==> r.value.height == a.height
    ensures r.Some? && k != HzOption ==> r.value.hz == a.hz
    ensures r.Some? && k != OrientationOption ==> r.value.orientation == a.orientation
    ensures k == DisplayOption ==> r == Some(a.(display := value))
    ensures k == WidthOption ==> r.Some? == ParseInt(Some(value)).Some?
    ensures k == WidthOption && r.Some? ==> r.value.width == ParseInt(Some(value)).value
    ensures k == HeightOption ==> r.Some? == ParseInt(Some(value)).Some?
    ensures k == HeightOption && r.Some? ==> r.value.height == ParseInt(Some(value)).value
    ensures k == HzOption ==> r.Some? == hzOf(value).Some?
    ensures k == HzOption && r.Some? ==> r.value.hz == hzOf(value).value
    ensures k == OrientationOption ==> r.Some? == (ParseOrientationToken(Some(value)) >= 0)
    ensures k == OrientationOption && r.Some? ==> r.value.orientation == ParseOrientationToken(Some(value))
  {
    match k
    case DisplayOption => Some(a.(display := value))
    case WidthOption =>
      (match ParseInt(Some(value))
       case Some(v) => Some(a.(width := v))
       case None => None)
    case HeightOption =>
      (match ParseInt(Some(value))
       case Some(v) => Some(a.(height := v))
       case None => None)
    case HzOption =>
      (match hzOf(value)
       case Some(v) => Some(a.(hz := v))
       case None => None)
    case OrientationOption =>
      var o := ParseOrientationToken(Some(value));
      if o < 0 then None else Some(a.(orientation := o))
  }

  /** ParseStep once the token at `i` has been classified as `k`. */
  function StepOn(k: Token, argv: seq<string>, i: nat, a: Args, hzOf: string -> Option<int32>): (step: Step)
    requires 1 <= i < |argv|
    ensures step.Advance? ==> step.next == if TakesValue(k) then i + 2 else i + 1
    ensures step.Advance? ==> step.next <= |argv|
    ensures step.args.program == a.program
  {
    if IsFlag(k) then Advance(SetFlag(a, k), i + 1)
    else if TakesValue(k) && i + 1 < |argv| then
      match StoreValue(a, k, argv[i + 1], hzOf)
      case Some(a') => Advance(a', i + 2)
      case None => Reject(a)
    else Reject(a)
  }

  /** The return value of parseArgs and the record it leaves behind. */
  datatype Parse = Parse(ok: bool, args: Args)

  /** The parse loop from token `i` to the end. */
  function ParseFrom(argv: seq<string>, i: nat, a: Args, hzOf: string -> Option<int32>): (p: Parse)
    requires 1 <= i <= |argv|
    ensures p.args.program == a.program
    decreases |argv| - i
  {
    if i == |argv| then Parse(true, a)
    else match ParseStep(argv, i, a, hzOf)
      case Advance(a', j) => ParseFrom(argv, j, a', hzOf)
      case Reject(a') => Parse(false, a')
  }

  /** parseArgs over `argv` (whose length is `argc`), updating the caller's `init`. */
  function ParseArgsSpec(argv: seq<string>, init: Args, hzOf: string -> Option<int32>): (p: Parse)
    ensures p.args.program == if |argv| > 0 then argv[0] else DefaultProgram
    ensures |argv| <= 1 ==> !p.ok
  {
    var a := init.(program := if |argv| > 0 then argv[0] else DefaultProgram);
    if |argv| <= 1 then Parse(false, a) else ParseFrom(argv, 1, a, hzOf)
  }

  /** The body of the parse loop for the token at `i`: a flag sets its field;
      a value option with a following token advances `i` to that token and
      stores its value; anything else stops the parse.  `last` is the index
      of the last token consumed. */
  method ParseToken(argv: seq<string>, i: nat, out: Args, hzOf: string -> Option<int32>)
    returns (accepted: bool, last: nat, updated: Args)
    requires 1 <= i < |argv|
    ensures accepted ==> ParseStep(argv, i, out, hzOf) == Advance(updated, last + 1)
    ensures !accepted ==> ParseStep(argv, i, out, hzOf) == Reject(updated)
  {
    var a := argv[i];
    var k := Recognize(a);
    updated := out;
    last := i;
    if k == ListFlag { updated := updated.(list := true); return true, last, updated; }
    if k == ListModesFlag { updated := updated.(listModes := true); return true, last, updated; }
    if k == PersistFlag { updated := updated.(persist := true); return true, last, updated; }
    if k == DryRunFlag { updated := updated.(dryRun := true); return true, last, updated; }
    if k == JsonFlag { updated := updated.(json := true); return true, last, updated; }
    if k == VerboseFlag { updated := updated.(verbose := true); return true, last, updated; }
    if k == QuietFlag { updated := updated.(quiet := true); return true, last, updated; }

    if TakesValue(k) && i + 1 < |argv| {
      last := last + 1;
      accepted, updated := ParseValueOption(k, argv[last], updated, hzOf);
      return accepted, last, updated;
    }

    // unknown token
    return false, last, updated;
  }

  /** The branches of the loop body for an option followed by its value:
      --display stores the text, --width and --height go through parseInt,
      --hz through the `strtod` conversion `hzOf`, --orientation through
      parseOrientationToken; a value that does not convert rejects. */
  method ParseValueOption(k: Token, value: string, out: Args, hzOf: string -> Option<int32>)
    returns (accepted: bool, updated: Args)
    requires TakesValue(k)
    ensures accepted <==> StoreValue(out, k, value, hzOf).Some?
    ensures accepted ==> updated == StoreValue(out, k, value, hzOf).value
    ensures !accepted ==> updated == out
  {
    updated := out;
    if k == DisplayOption {
      updated := updated.(display := value);
      return true, updated;
    }
    if k == WidthOption {
      var v := ParseInt(Some(value));
      if v.None? { return false, updated; }
      updated := updated.(width := v.value);
      return true, updated;
    }
    if k == HeightOption {
      var v := ParseInt(Some(value));
      if v.None? { return false, updated; }
      updated := updated.(height := v.value);
      return true, updated;
    }
    if k == HzOption {
      var v := hzOf(value);
      if v.None? { return false, updated; }
      updated := updated.(hz := v.value);
      return true, updated;
    }
    var o := ParseOrientationToken(Some(value));
    if o < 0 { return false, updated; }
    updated := updated.(orientation := o);
    return true, updated;
  }

  /** Set the program name, then walk the tokens from index 1 until one is
      rejected or the end is reached. */
  method ParseArgs(argv: seq<string>, init: Args, hzOf: string -> Option<int32>)
    returns (ok: bool, out: Args)
    ensures Parse(ok, out) == ParseArgsSpec(argv, init, hzOf)
  {
    out := init.(program := if |argv| > 0 then argv[0] else DefaultProgram);
    if |argv| <= 1 {
      return false, out;
    }
    var i := 1;
    while i < |argv|
      invariant 1 <= i <= |argv|
      invariant ParseFrom(argv, i, out, hzOf) == ParseArgsSpec(argv, init, hzOf)
      decreases |argv| - i
    {
      var accepted;
      accepted, i, out := ParseToken(argv, i, out, hzOf);
      if !accepted {
        return false, out;
      }
      i := i + 1;
    }
    return true, out;
  }

  // ---------------------------------------------------------------- properties of parseArgs

  /** No token from index `i` on is recognised as `k`. */
  predicate Unmentioned(argv: seq<string>, i: nat, k: Token) {
    forall j :: i <= j < |argv| ==> Recognize(argv[j]) != k
  }

  /** One step changes at most the field its token names, and a rejected
      step changes nothing. */
  lemma StepTouchesOnlyItsField(argv: seq<string>, i: nat, a: Args, hzOf: string -> Option<int32>)
    requires 1 <= i < |argv|
    ensures var k := Recognize(argv[i]); var step := ParseStep(argv, i, a, hzOf); var r := step.args;
      && (step.Reject? ==> r == a)
      && (k != ListFlag ==> r.list == a.list)
      && (k != ListModesFlag ==> r.listModes == a.listModes)
      && (k != PersistFlag ==> r.persist == a.persist)
      && (k != DryRunFlag ==> r.dryRun == a.dryRun)
      && (k != JsonFlag ==> r.json == a.json)
      && (k != VerboseFlag ==> r.verbose == a.verbose)
      && (k != QuietFlag ==> r.quiet == a.quiet)
      && (k != DisplayOption ==> r.display == a.display)
      && (k != WidthOption ==> r.width == a.width)
      && (k != HeightOption ==> r.height == a.height)
      && (k != HzOption ==> r.hz == a.hz)
      && (k != OrientationOption ==> r.orientation == a.orientation)
  {
    var k := Recognize(argv[i]);
    if !IsFlag(k) && TakesValue(k) && i + 1 < |argv| {
      var stored := StoreValue(a, k, argv[i + 1], hzOf);
    }
  }

  /** A step sets a flag when its token is that flag, and never clears one. */
  lemma StepSetsFlags(argv: seq<string>, i: nat, a: Args, hzOf: string -> Option<int32>)
    requires 1 <= i < |argv|
    ensures var k := Recognize(argv[i]); var step := ParseStep(argv, i, a, hzOf); var r := step.args;
      && r.list == (a.list || (step.Advance? && k == ListFlag))
      && r.listModes == (a.listModes || (step.Advance? && k == ListModesFlag))
      && r.persist == (a.persist || (step.Advance? && k == PersistFlag))
      && r.dryRun == (a.dryRun || (step.Advance? && k == DryRunFlag))
      && r.json == (a.json || (step.Advance? && k == JsonFlag))
      && r.verbose == (a.verbose || (step.Advance? && k == VerboseFlag))
      && r.quiet == (a.quiet || (step.Advance? && k == QuietFlag))
  {
  }

  /** The boolean flags are only ever set, never cleared, so repeating one is harmless. */
  lemma {:induction false} FlagsOnlySet(argv: seq<string>, i: nat, a: Args, hzOf: string -> Option<int32>)
    requires 1 <= i <= |argv|
    ensures var r := ParseFrom(argv, i, a, hzOf).args;
      && (a.list ==> r.list) && (a.listModes ==> r.listModes) && (a.persist ==> r.persist)
      && (a.dryRun ==> r.dryRun) && (a.json ==> r.json) && (a.verbose ==> r.verbose) && (a.quiet ==> r.quiet)
    decreases |argv| - i
  {
    if i < |argv| {
      match ParseStep(argv, i, a, hzOf)
      case Advance(a', j) =>
        StepSetsFlags(argv, i, a, hzOf);
        FlagsOnlySet(argv, j, a', hzOf);
      case Reject(_) =>
    }
  }

  /** A flag that never occurs keeps the value it had. */
  lemma {:induction false} UnmentionedFlagsKept(argv: seq<string>, i: nat, a: Args, hzOf: string -> Option<int32>)
    requires 1 <= i <= |argv|
    ensures var r := ParseFrom(argv, i, a, hzOf).args;
      && (Unmentioned(argv, i, ListFlag) ==> r.list == a.list)
      && (Unmentioned(argv, i, ListModesFlag) ==> r.listModes == a.listModes)
      && (Unmentioned(argv, i, PersistFlag) ==> r.persist == a.persist)
      && (Unmentioned(argv, i, DryRunFlag) ==> r.dryRun == a.dryRun)
      && (Unmentioned(argv, i, JsonFlag) ==> r.json == a.json)
      && (Unmentioned(argv, i, VerboseFlag) ==> r.verbose == a.verbose)
      && (Unmentioned(argv, i, QuietFlag) ==> r.quiet == a.quiet)
    decreases |argv| - i
  {
    if i < |argv| {
      match ParseStep(argv, i, a, hzOf)
      case Advance(a', j) =>
        StepTouchesOnlyItsField(argv, i, a, hzOf);
        UnmentionedFlagsKept(argv, j, a', hzOf);
      case Reject(_) =>
    }
  }

  /** An option that never occurs leaves its field as it was. */
  lemma {:induction false} UnmentionedValuesKept(argv: seq<string>, i: nat, a: Args, hzOf: string -> Option<int32>)
    requires 1 <= i <= |argv|
    ensures var r := ParseFrom(argv, i, a, hzOf).args;
      && (Unmentioned(argv, i, DisplayOption) ==> r.display == a.display)
      && (Unmentioned(argv, i, WidthOption) ==> r.width == a.width)
      && (Unmentioned(argv, i, HeightOption) ==> r.height == a.height)
      && (Unmentioned(argv, i, HzOption) ==> r.hz == a.hz)
      && (Unmentioned(argv, i, OrientationOption) ==> r.orientation == a.orientation)
    decreases |argv| - i
  {
    if i < |argv| {
      match ParseStep(argv, i, a, hzOf)
      case Advance(a', j) =>
        StepTouchesOnlyItsField(argv, i, a, hzOf);
        UnmentionedValuesKept(argv, j, a', hzOf);
      case Reject(_) =>
    }
  }

  /** Starting from a default-constructed record, every field whose option
      never occurs keeps its default: the -1 sentinels and false. */
  lemma DefaultsKept(argv: seq<string>, hzOf: string -> Option<int32>)
    requires |argv| > 1
    ensures var r := ParseArgsSpec(argv, DefaultArgs, hzOf).args;
      && (Unmentioned(argv, 1, WidthOption) ==> r.width == -1)
      && (Unmentioned(argv, 1, HeightOption) ==> r.height == -1)
      && (Unmentioned(argv, 1, HzOption) ==> r.hz == -1)
      && (Unmentioned(argv, 1, OrientationOption) ==> r.orientation == -1)
      && (Unmentioned(argv, 1, DisplayOption) ==> r.display == "")
      && (Unmentioned(argv, 1, PersistFlag) ==> !r.persist)
      && (Unmentioned(argv, 1, DryRunFlag) ==> !r.dryRun)
      && (Unmentioned(argv, 1, ListFlag) ==> !r.list)
      && (Unmentioned(argv, 1, ListModesFlag) ==> !r.listModes)
      && (Unmentioned(argv, 1, JsonFlag) ==> !r.json)
      && (Unmentioned(argv, 1, VerboseFlag) ==> !r.verbose)
      && (Unmentioned(argv, 1, QuietFlag) ==> !r.quiet)
  {
    UnmentionedFlagsKept(argv, 1, DefaultArgs.(program := argv[0]), hzOf);
    UnmentionedValuesKept(argv, 1, DefaultArgs.(program := argv[0]), hzOf);
  }

  /** A successful parse stops exactly at the end of its tokens, so parsing more
      tokens continues from where it ended. */
  lemma {:induction false} ParseAppend(argv: seq<string>, rest: seq<string>, i: nat, a: Args, hzOf: string -> Option<int32>)
    requires 1 <= i <= |argv|
    requires ParseFrom(argv, i, a, hzOf).ok
    ensures ParseFrom(argv + rest, i, a, hzOf) == ParseFrom(argv + rest, |argv|, ParseFrom(argv, i, a, hzOf).args, hzOf)
    decreases |argv| - i
  {
    if i < |argv| {
      assert (argv + rest)[i] == argv[i];
      var k := Recognize(argv[i]);
      if TakesValue(k) {
        assert (argv + rest)[i + 1] == argv[i + 1];
      }
      assert ParseStep(argv + rest, i, a, hzOf) == ParseStep(argv, i, a, hzOf);
      match ParseStep(argv, i, a, hzOf)
      case Advance(a', j) => ParseAppend(argv, rest, j, a', hzOf);
      case Reject(_) =>
    }
  }

  /** A flag token after a successful parse sets its field and nothing else. */
  lemma AppendFlag(argv: seq<string>, t: string, init: Args, hzOf: string -> Option<int32>)
    requires ParseArgsSpec(argv, init, hzOf).ok && IsFlag(Recognize(t))
    ensures ParseArgsSpec(argv + [t], init, hzOf)
         == Parse(true, SetFlag(ParseArgsSpec(argv, init, hzOf).args, Recognize(t)))
  {
    var before := ParseArgsSpec(argv, init, hzOf).args;
    var both := argv + [t];
    ParseAppend(argv, [t], 1, init.(program := argv[0]), hzOf);
    assert both[|argv|] == t;
    assert ParseStep(both, |argv|, before, hzOf) == Advance(SetFlag(before, Recognize(t)), |both|);
  }

  /** Repeating a flag is harmless: the second occurrence changes nothing. */
  lemma RepeatedFlagHarmless(argv: seq<string>, t: string, init: Args, hzOf: string -> Option<int32>)
    requires ParseArgsSpec(argv, init, hzOf).ok && IsFlag(Recognize(t))
    ensures ParseArgsSpec(argv + [t] + [t], init, hzOf) == ParseArgsSpec(argv + [t], init, hzOf)
  {
    AppendFlag(argv, t, init, hzOf);
    AppendFlag(argv + [t], t, init, hzOf);
    SetFlagIdempotent(ParseArgsSpec(argv, init, hzOf).args, Recognize(t));
  }

  lemma SetFlagIdempotent(a: Args, k: Token)
    requires IsFlag(k)
    ensures SetFlag(SetFlag(a, k), k) == SetFlag(a, k)
  {
  }

  /** A value option and its value after a successful parse store the
      converted value in the option's field, replacing any earlier value, or
      make the parse fail when the value does not convert. */
  lemma AppendValueOption(argv: seq<string>, t: string, value: string, init: Args, hzOf: string -> Option<int32>)
    requires ParseArgsSpec(argv, init, hzOf).ok && TakesValue(Recognize(t))
    ensures var before := ParseArgsSpec(argv, init, hzOf).args;
      ParseArgsSpec(argv + [t, value], init, hzOf)
        == match StoreValue(before, Recognize(t), value, hzOf)
           case Some(after) => Parse(true, after)
           case None => Parse(false, before)
  {
    var before := ParseArgsSpec(argv, init, hzOf).args;
    var both := argv + [t, value];
    ParseAppend(argv, [t, value], 1, init.(program := argv[0]), hzOf);
    assert both[|argv|] == t && both[|argv| + 1] == value;
    match StoreValue(before, Recognize(t), value, hzOf)
    case Some(after) =>
      assert ParseStep(both, |argv|, before, hzOf) == Advance(after, |both|);
    case None =>
  }

  /** A later occurrence of --width overwrites an earlier one. */
  lemma LaterWidthOverwrites(argv: seq<string>, value: string, init: Args, hzOf: string -> Option<int32>)
    requires ParseArgsSpec(argv, init, hzOf).ok
    requires ParseInt(Some(value)).Some?
    ensures ParseArgsSpec(argv + ["--width", value], init, hzOf)
         == Parse(true, ParseArgsSpec(argv, init, hzOf).args.(width := ParseInt(Some(value)).value))
  {
    assert Recognize("--width") == WidthOption;
    AppendValueOption(argv, "--width", value, init, hzOf);
  }

  /** A value option that is the last token is rejected, like an unknown token. */
  lemma TrailingValueOptionFails(argv: seq<string>, t: string, init: Args, hzOf: string -> Option<int32>)
    requires ParseArgsSpec(argv, init, hzOf).ok && TakesValue(Recognize(t))
    ensures ParseArgsSpec(argv + [t], init, hzOf) == Parse(false, ParseArgsSpec(argv, init, hzOf).args)
  {
    var both := argv + [t];
    ParseAppend(argv, [t], 1, init.(program := argv[0]), hzOf);
    assert both[|argv|] == t;
  }

  /** An unparsable --width or --height value, an unknown orientation name,
      and an unrecognised token each make the parse fail. */
  lemma BadTokenRejected(argv: seq<string>, i: nat, a: Args, hzOf: string -> Option<int32>)
    requires 1 <= i < |argv|
    requires || Recognize(argv[i]) == UnknownToken
             || (Recognize(argv[i]) in {WidthOption, HeightOption} && i + 1 < |argv| && ParseInt(Some(argv[i + 1])).None?)
             || (Recognize(argv[i]) == OrientationOption && i + 1 < |argv| && ParseOrientationToken(Some(argv[i + 1])) < 0)
    ensures ParseFrom(argv, i, a, hzOf) == Parse(false, a)
  {
  }
}
