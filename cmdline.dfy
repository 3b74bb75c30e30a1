/** The command-line front ends: the "%d,%d,%d,%d" scan of a -c argument, the
    option loop of boxcutter.cpp's main and the decision it leads to, and the
    main of boxcutter-fs.cpp. */
module CommandLine {
  import opened Bytes
  import opened SaveBitmap
  import opened Capture
  import opened Selection

  // ---------------------------------------------------------------------
  // sscanf(arg, "%d,%d,%d,%d", ...)

  /** The characters isspace accepts in the C locale. */
  predicate IsSpace(c: char) {
    c == ' ' || (9 <= c as int <= 13)
  }

  predicate IsDigit(c: char) {
    '0' <= c <= '9'
  }

  function DigitValue(c: char): (d: nat)
    requires IsDigit(c)
    ensures d < 10
  {
    c as int - '0' as int
  }

  predicate AllDigits(s: string) {
    forall k :: 0 <= k < |s| ==> IsDigit(s[k])
  }

  /** The length of the longest prefix of `s` whose characters satisfy the
      class: the leading white space %d skips, or the digits it reads. */
  function SpaceRun(s: string): (n: nat)
    ensures n <= |s|
    ensures forall k :: 0 <= k < n ==> IsSpace(s[k])
    ensures n < |s| ==> !IsSpace(s[n])
  {
    if s == [] || !IsSpace(s[0]) then 0 else 1 + SpaceRun(s[1..])
  }

  function DigitRun(s: string): (n: nat)
    ensures n <= |s|
    ensures AllDigits(s[..n])
    ensures n < |s| ==> !IsDigit(s[n])
  {
    if s == [] || !IsDigit(s[0]) then 0
    else
      var n := 1 + DigitRun(s[1..]);
      assert forall k :: 1 <= k < n ==> s[..n][k] == s[1..][..n - 1][k - 1];
      n
  }

  /** The value of a string of decimal digits. */
  function Value(ds: string): nat
    requires AllDigits(ds)
    decreases |ds|
  {
    if ds == [] then 0 else Value(ds[..|ds| - 1]) * 10 + DigitValue(ds[|ds| - 1])
  }

  /** One %d conversion after its white space: an optional sign and at least
      one digit. On success, the value and the text after it. */
  function ScanSigned(t: string): (r: Option<(int, string)>)
    ensures r.Some? ==> |r.value.1| < |t|
    ensures r.Some? ==> r.value.1 == [] || !IsDigit(r.value.1[0])
    ensures (forall k :: 0 <= k < |t| ==> !IsDigit(t[k])) ==> r.None?
  {
    var sign := if |t| > 0 && (t[0] == '-' || t[0] == '+') then 1 else 0;
    var u := t[sign..];
    var n := DigitRun(u);
    if n == 0 then None
    else
      assert u[0] == t[sign];
      var v: int := Value(u[..n]);
      Some((if sign == 1 && t[0] == '-' then -v else v, u[n..]))
  }

  /** One %d conversion: optional white space, an optional sign and at least
      one digit. */
  function ScanInt(s: string): (r: Option<(int, string)>)
    ensures r.Some? ==> |r.value.1| < |s|
    ensures r.Some? ==> r.value.1 == [] || !IsDigit(r.value.1[0])
    ensures (forall k :: 0 <= k < |s| ==> !IsDigit(s[k])) ==> r.None?
  {
    var t := s[SpaceRun(s)..];
    assert forall k :: 0 <= k < |t| ==> t[k] == s[SpaceRun(s) + k];
    ScanSigned(t)
  }

  /** A literal ',' in the format: it must come next, with no white space. */
  function ScanComma(s: string): (r: Option<string>)
    ensures r.Some? <==> |s| > 0 && s[0] == ','
    ensures r.Some? ==> s == [','] + r.value
  {
    if |s| > 0 && s[0] == ',' then Some(s[1..]) else None
  }

  /** A ',' and then one more %d. */
  function ScanNext(s: string): (r: Option<(int, string)>)
    ensures r.Some? ==> |s| > 0 && s[0] == ','
    ensures r.Some? ==> |r.value.1| < |s| - 1
    ensures r.Some? ==> r.value.1 == [] || !IsDigit(r.value.1[0])
  {
    var b := ScanComma(s);
    if b.None? then None else ScanInt(b.value)
  }

  /** The whole conversion; None when sscanf would return less than 4. Text
      after the fourth number is ignored. */
  function ScanCoords(s: string): (r: Option<Coords>)
    ensures (forall k :: 0 <= k < |s| ==> !IsDigit(s[k])) ==> r.None?
  {
    var a := ScanInt(s);
    if a.None? then None else
    var b := ScanNext(a.value.1);
    if b.None? then None else
    var c := ScanNext(b.value.1);
    if c.None? then None else
    var d := ScanNext(c.value.1);
    if d.None? then None else
    Some(Coords(a.value.0, b.value.0, c.value.0, d.value.0))
  }

  function Digit(n: nat): (c: char)
    requires n < 10
    ensures IsDigit(c) && DigitValue(c) == n
  {
    (48 + n) as char
  }

  /** Decimal rendering, as printf's %d writes it. */
  function NatToString(n: nat): (s: string)
    ensures |s| > 0 && AllDigits(s)
    decreases n
  {
    if n < 10 then [Digit(n)] else NatToString(n / 10) + [Digit(n % 10)]
  }

  function IntToString(v: int): string {
    if v < 0 then "-" + NatToString(-v) else NatToString(v)
  }

  function RenderCoords(c: Coords): string {
    IntToString(c.x1) + ("," + (IntToString(c.y1) + ("," + (IntToString(c.x2) + ("," + IntToString(c.y2))))))
  }

  lemma {:induction false} ValueOfNatToString(n: nat)
    ensures Value(NatToString(n)) == n
    decreases n
  {
    if n >= 10 {
      var s := NatToString(n);
      assert s[..|s| - 1] == NatToString(n / 10);
      ValueOfNatToString(n / 10);
    }
  }

  lemma {:induction false} DigitRunOf(ds: string, rest: string)
    requires AllDigits(ds)
    requires rest == [] || !IsDigit(rest[0])
    ensures DigitRun(ds + rest) == |ds|
    decreases |ds|
  {
    if ds == [] {
      assert ds + rest == rest;
    } else {
      assert (ds + rest)[1..] == ds[1..] + rest;
      DigitRunOf(ds[1..], rest);
    }
  }

  lemma NatScan(n: nat, rest: string)
    requires rest == [] || !IsDigit(rest[0])
    ensures var u := NatToString(n) + rest;
      DigitRun(u) == |NatToString(n)| && Value(u[..DigitRun(u)]) == n
      && u[DigitRun(u)..] == rest
  {
    var ds := NatToString(n);
    DigitRunOf(ds, rest);
    assert (ds + rest)[..|ds|] == ds;
    assert (ds + rest)[|ds|..] == rest;
    ValueOfNatToString(n);
  }

  /** %d reads back what %d writes, stopping where the digits stop. */
  lemma ScanIntRoundTrip(v: int, rest: string)
    requires rest == [] || !IsDigit(rest[0])
    ensures ScanInt(IntToString(v) + rest) == Some((v, rest))
  {
    if v < 0 {
      ScanNegative(-v, rest);
    } else {
      ScanNonNegative(v, rest);
    }
  }

  lemma ScanNonNegative(n: nat, rest: string)
    requires rest == [] || !IsDigit(rest[0])
    ensures ScanInt(NatToString(n) + rest) == Some((n, rest))
  {
    var s := NatToString(n) + rest;
    NatScan(n, rest);
    assert s[0] == NatToString(n)[0];
    assert SpaceRun(s) == 0 && s[0..] == s;
  }

  lemma ScanNegative(n: nat, rest: string)
    requires 0 < n
    requires rest == [] || !IsDigit(rest[0])
    ensures ScanInt("-" + NatToString(n) + rest) == Some((-(n as int), rest))
  {
    var u := NatToString(n) + rest;
    var s := "-" + u;
    assert "-" + NatToString(n) + rest == s;
    NatScan(n, rest);
    assert s[0] == '-' && s[1..] == u;
    assert SpaceRun(s) == 0 && s[0..] == s;
  }

  /** An explicit '+' is accepted and changes nothing. */
  lemma ScanPlusSign(n: nat, rest: string)
    requires rest == [] || !IsDigit(rest[0])
    ensures ScanInt("+" + NatToString(n) + rest) == Some((n as int, rest))
  {
    var u := NatToString(n) + rest;
    var s := "+" + u;
    assert "+" + NatToString(n) + rest == s;
    NatScan(n, rest);
    assert s[0] == '+' && s[1..] == u;
    assert SpaceRun(s) == 0 && s[0..] == s;
  }

  /** %d skips leading white space: one more space in front changes nothing. */
  lemma ScanIntSkipsSpace(c: char, s: string)
    requires IsSpace(c)
    ensures ScanInt([c] + s) == ScanInt(s)
  {
    var cs := [c] + s;
    assert cs[1..] == s;
    assert SpaceRun(cs) == 1 + SpaceRun(s);
    assert cs[SpaceRun(cs)..] == s[SpaceRun(s)..];
    ScanIntAfterSpace(cs, s);
  }

  /** %d looks at nothing before the end of the leading white space. */
  lemma ScanIntAfterSpace(s: string, s': string)
    requires s[SpaceRun(s)..] == s'[SpaceRun(s')..]
    ensures ScanInt(s) == ScanInt(s')
  {
  }

  /** What %d leaves unread is the tail of its input. */
  lemma ScanIntRest(s: string)
    ensures ScanInt(s).Some? ==> ScanInt(s).value.1 == s[|s| - |ScanInt(s).value.1|..]
  {
    var t := s[SpaceRun(s)..];
    var sign := if |t| > 0 && (t[0] == '-' || t[0] == '+') then 1 else 0;
    var u := t[sign..];
    var n := DigitRun(u);
    if n > 0 {
      assert u[n..] == s[SpaceRun(s) + sign + n..];
    }
  }

  /** Without a comma in the argument sscanf cannot convert four numbers. */
  lemma ScanCoordsNeedsComma(s: string)
    requires forall k :: 0 <= k < |s| ==> s[k] != ','
    ensures ScanCoords(s).None?
  {
    var a := ScanInt(s);
    if a.Some? {
      ScanIntRest(s);
      var r := a.value.1;
      if |r| > 0 {
        assert r[0] == s[|s| - |r|];
      }
    }
  }

  lemma ScanNextRoundTrip(v: int, rest: string)
    requires rest == [] || !IsDigit(rest[0])
    ensures ScanNext("," + (IntToString(v) + rest)) == Some((v, rest))
  {
    assert ("," + (IntToString(v) + rest))[1..] == IntToString(v) + rest;
    ScanIntRoundTrip(v, rest);
  }

  /** The coordinates argument reads back the four numbers it was rendered
      from, whatever non-digit text follows them. */
  lemma ScanCoordsRoundTrip(c: Coords, rest: string)
    requires rest == [] || !IsDigit(rest[0])
    ensures ScanCoords(RenderCoords(c) + rest) == Some(c)
  {
    var t3 := IntToString(c.y2) + rest;
    var t2 := IntToString(c.x2) + ("," + t3);
    var t1 := IntToString(c.y1) + ("," + t2);
    var t0 := IntToString(c.x1) + ("," + t1);
    assert RenderCoords(c) + rest == t0;
    ScanIntRoundTrip(c.x1, "," + t1);
    ScanNextRoundTrip(c.y1, "," + t2);
    ScanNextRoundTrip(c.x2, "," + t3);
    ScanNextRoundTrip(c.y2, rest);
  }

  // ---------------------------------------------------------------------
  // The option loop of boxcutter.cpp's main

  /** Why main returns 1 before capturing anything. */
  datatype Reason = Version | Help | UnknownOption | MissingCoords | BadCoords | NoSelection

  /** The end of the option loop: an early return, or the coordinates the
      options fixed (if any) and the filename (if any). */
  datatype Options =
    | Exit(why: Reason)
    | Options(coords: Option<Coords>, filename: Option<string>)

  predicate IsOption(a: string) {
    |a| > 0 && a[0] == '-'
  }

  /** The strcmp chain main runs on an argument that starts with '-'. */
  datatype Flag = FullScreenFlag | CoordsFlag | VersionFlag | HelpFlag | OtherFlag

  function FlagOf(a: string): (f: Flag)
    ensures f == FullScreenFlag <==> a == "-f" || a == "--fullscreen"
    ensures f == CoordsFlag <==> a == "-c" || a == "--coords"
    ensures f == VersionFlag <==> a == "-v" || a == "--version"
    ensures f == HelpFlag <==> a == "-h" || a == "--help"
  {
    if a == "-f" || a == "--fullscreen" then FullScreenFlag
    else if a == "-c" || a == "--coords" then CoordsFlag
    else if a == "-v" || a == "--version" then VersionFlag
    else if a == "-h" || a == "--help" then HelpFlag
    else OtherFlag
  }

  /** The arguments from index `i` on. */
  function From(argv: seq<string>, i: nat): seq<string> {
    if i < |argv| then argv[i..] else []
  }

  /** The option loop over the remaining arguments, with the coordinates
      chosen so far. */
  function ScanArgs(args: seq<string>, coords: Option<Coords>, screen: Rect): Options
    decreases |args|
  {
    if args == [] then Options(coords, None)
    else
      var a := args[0];
      if !IsOption(a) then Options(coords, Some(a))
      else match FlagOf(a)
        case FullScreenFlag => ScanArgs(args[1..], Some(Corners(screen)), screen)
        case CoordsFlag =>
          if |args| < 2 then Exit(MissingCoords)
          else
            var c := ScanCoords(args[1]);
            if c.None? then Exit(BadCoords)
            else ScanArgs(args[2..], c, screen)
        case VersionFlag => Exit(Version)
        case HelpFlag => Exit(Help)
        case OtherFlag => Exit(UnknownOption)
  }

  lemma ScanFullScreenStep(args: seq<string>, coords: Option<Coords>, screen: Rect)
    requires args != [] && IsOption(args[0]) && FlagOf(args[0]) == FullScreenFlag
    ensures ScanArgs(args, coords, screen) == ScanArgs(args[1..], Some(Corners(screen)), screen)
  {
  }

  lemma ScanCoordsStep(args: seq<string>, coords: Option<Coords>, screen: Rect)
    requires |args| >= 2 && IsOption(args[0]) && FlagOf(args[0]) == CoordsFlag
    requires ScanCoords(args[1]).Some?
    ensures ScanArgs(args, coords, screen) == ScanArgs(args[2..], ScanCoords(args[1]), screen)
  {
  }

  lemma FromNext(argv: seq<string>, i: nat)
    requires i < |argv|
    ensures From(argv, i) != [] && From(argv, i)[0] == argv[i]
    ensures From(argv, i)[1..] == From(argv, i + 1)
  {
  }

  /** What the option loop of main decides for argv (argv[0] is the program). */
  function MainOptions(argv: seq<string>, screen: Rect): Options {
    ScanArgs(From(argv, 1), None, screen)
  }

  /** The for loop over argv in main, up to the filename or an early return. */
  method ParseOptions(argv: seq<string>, screen: Rect) returns (r: Options)
    ensures r == MainOptions(argv, screen)
  {
    var coords: Option<Coords> := None;
    var i := 1;
    while i < |argv|
      invariant 1 <= i
      invariant ScanArgs(From(argv, i), coords, screen) == MainOptions(argv, screen)
      decreases |argv| - i
    {
      var a := argv[i];
      var flag := FlagOf(a);
      FromNext(argv, i);
      ghost var args := From(argv, i);
      if |a| == 0 || a[0] != '-' {
        break;
      } else if flag == FullScreenFlag {
        ScanFullScreenStep(args, coords, screen);
        coords := Some(Corners(screen));
      } else if flag == CoordsFlag {
        if i + 1 >= |argv| {
          return Exit(MissingCoords);
        }
        FromNext(argv, i + 1);
        i := i + 1;
        var c := ScanCoords(argv[i]);
        if c.None? {
          return Exit(BadCoords);
        }
        ScanCoordsStep(args, coords, screen);
        coords := c;
      } else if flag == VersionFlag {
        return Exit(Version);
      } else if flag == HelpFlag {
        return Exit(Help);
      } else {
        return Exit(UnknownOption);
      }
      i := i + 1;
    }
    var filename: Option<string> := None;
    if i < |argv| {
      filename := Some(argv[i]);
    }
    return Options(coords, filename);
  }

  /** A recognised option as it appears on the command line: -f, or -c with
      an argument the scan accepts, each in its short or its long spelling. */
  datatype Opt = FullScreen(long: bool) | CoordsArg(long: bool, arg: string)

  function FullScreenSpelling(long: bool): (a: string)
    ensures IsOption(a) && FlagOf(a) == FullScreenFlag
  {
    if long then "--fullscreen" else "-f"
  }

  function CoordsSpelling(long: bool): (a: string)
    ensures IsOption(a) && FlagOf(a) == CoordsFlag
  {
    if long then "--coords" else "-c"
  }

  /** The scan accepts the option's argument, if it has one. */
  predicate Accepted(o: Opt) {
    o.CoordsArg? ==> ScanCoords(o.arg).Some?
  }

  predicate WellFormed(os: seq<Opt>) {
    forall k :: 0 <= k < |os| ==> Accepted(os[k])
  }

  function RenderOpt(o: Opt): seq<string> {
    match o
    case FullScreen(long) => [FullScreenSpelling(long)]
    case CoordsArg(long, arg) => [CoordsSpelling(long), arg]
  }

  function RenderOpts(os: seq<Opt>): seq<string>
    decreases |os|
  {
    if os == [] then [] else RenderOpt(os[0]) + RenderOpts(os[1..])
  }

  /** The coordinates an option fixes. */
  function OptCoords(o: Opt, screen: Rect): Coords
    requires Accepted(o)
  {
    match o
    case FullScreen(_) => Corners(screen)
    case CoordsArg(_, arg) => ScanCoords(arg).value
  }

  /** The coordinates a run of options leaves: the last option's, or the
      earlier choice when there is none. */
  function LastChoice(os: seq<Opt>, coords: Option<Coords>, screen: Rect): (r: Option<Coords>)
    requires WellFormed(os)
    ensures os != [] ==> r == Some(OptCoords(os[|os| - 1], screen))
    ensures os == [] ==> r == coords
    decreases |os|
  {
    if os == [] then coords
    else
      WellFormedTail(os);
      LastChoice(os[1..], Some(OptCoords(os[0], screen)), screen)
  }

  lemma WellFormedTail(os: seq<Opt>)
    requires WellFormed(os) && os != []
    ensures Accepted(os[0])
    ensures WellFormed(os[1..])
    ensures |os| > 1 ==> os[1..][|os| - 2] == os[|os| - 1]
  {
    assert Accepted(os[0]);
    forall k | 0 <= k < |os| - 1 ensures os[1..][k] == os[k + 1] { }
  }

  /** Scanning one recognised option moves past it and takes its coordinates. */
  lemma ScanOneOption(o: Opt, rest: seq<string>, coords: Option<Coords>, screen: Rect)
    requires Accepted(o)
    ensures ScanArgs(RenderOpt(o) + rest, coords, screen)
      == ScanArgs(rest, Some(OptCoords(o, screen)), screen)
  {
    var args := RenderOpt(o) + rest;
    match o
    case FullScreen(long) =>
      assert args[0] == FullScreenSpelling(long) && args[1..] == rest;
      ScanFullScreenStep(args, coords, screen);
    case CoordsArg(long, arg) =>
      assert args[0] == CoordsSpelling(long) && args[1] == arg && args[2..] == rest;
      ScanCoordsStep(args, coords, screen);
  }

  /** Scanning a run of recognised options moves past them and leaves the
      last one's coordinates. */
  lemma {:induction false} ScanPastOptions(os: seq<Opt>, post: seq<string>,
                                           coords: Option<Coords>, screen: Rect)
    requires WellFormed(os)
    ensures ScanArgs(RenderOpts(os) + post, coords, screen)
      == ScanArgs(post, LastChoice(os, coords, screen), screen)
    decreases |os|
  {
    if os == [] {
      assert RenderOpts(os) + post == post;
    } else {
      var rest := RenderOpts(os[1..]) + post;
      assert RenderOpts(os) + post == RenderOpt(os[0]) + rest;
      WellFormedTail(os);
      ScanOneOption(os[0], rest, coords, screen);
      ScanPastOptions(os[1..], post, Some(OptCoords(os[0], screen)), screen);
    }
  }

  lemma ArgsAfterProgram(prog: string, os: seq<Opt>, post: seq<string>)
    ensures From([prog] + RenderOpts(os) + post, 1) == RenderOpts(os) + post
  {
    var argv := [prog] + RenderOpts(os) + post;
    if |argv| == 1 {
      assert RenderOpts(os) + post == [];
    } else {
      assert argv[1..] == RenderOpts(os) + post;
    }
  }

  /** Options are read up to the first argument that does not start with '-',
      which is the filename; the last -c or -f wins, and what follows the
      filename is ignored. */
  lemma OptionsThenFilename(prog: string, os: seq<Opt>, filename: string, rest: seq<string>, screen: Rect)
    requires WellFormed(os)
    requires !IsOption(filename)
    ensures MainOptions([prog] + RenderOpts(os) + ([filename] + rest), screen)
      == Options(LastChoice(os, None, screen), Some(filename))
  {
    ArgsAfterProgram(prog, os, [filename] + rest);
    ScanPastOptions(os, [filename] + rest, None, screen);
  }

  /** Without a filename the options alone decide the coordinates, and the
      capture goes to the clipboard. */
  lemma OptionsOnly(prog: string, os: seq<Opt>, screen: Rect)
    requires WellFormed(os)
    ensures MainOptions([prog] + RenderOpts(os), screen) == Options(LastChoice(os, None, screen), None)
  {
    assert [prog] + RenderOpts(os) + [] == [prog] + RenderOpts(os);
    ArgsAfterProgram(prog, os, []);
    ScanPastOptions(os, [], None, screen);
  }

  /** -v, -h and any unrecognised option end main with 1, whatever follows. */
  lemma FlagExits(prog: string, os: seq<Opt>, a: string, rest: seq<string>, screen: Rect)
    requires WellFormed(os)
    requires IsOption(a)
    requires FlagOf(a) != FullScreenFlag && FlagOf(a) != CoordsFlag
    ensures MainOptions([prog] + RenderOpts(os) + ([a] + rest), screen).Exit?
    ensures (a == "-v" || a == "--version") ==>
      MainOptions([prog] + RenderOpts(os) + ([a] + rest), screen) == Exit(Version)
    ensures (a == "-h" || a == "--help") ==>
      MainOptions([prog] + RenderOpts(os) + ([a] + rest), screen) == Exit(Help)
    ensures FlagOf(a) == OtherFlag ==>
      MainOptions([prog] + RenderOpts(os) + ([a] + rest), screen) == Exit(UnknownOption)
  {
    ArgsAfterProgram(prog, os, [a] + rest);
    ScanPastOptions(os, [a] + rest, None, screen);
  }

  /** -c (or --coords) as the last argument ends main with 1. */
  lemma MissingCoordsExits(prog: string, os: seq<Opt>, long: bool, screen: Rect)
    requires WellFormed(os)
    ensures MainOptions([prog] + RenderOpts(os) + [CoordsSpelling(long)], screen) == Exit(MissingCoords)
  {
    var c := CoordsSpelling(long);
    ArgsAfterProgram(prog, os, [c]);
    ScanPastOptions(os, [c], None, screen);
  }

  /** A -c (or --coords) argument that is not four comma-separated integers
      ends main with 1. */
  lemma BadCoordsExits(prog: string, os: seq<Opt>, long: bool, arg: string, rest: seq<string>, screen: Rect)
    requires WellFormed(os)
    requires ScanCoords(arg) == None
    ensures MainOptions([prog] + RenderOpts(os) + ([CoordsSpelling(long), arg] + rest), screen) == Exit(BadCoords)
  {
    var c := CoordsSpelling(long);
    ArgsAfterProgram(prog, os, [c, arg] + rest);
    ScanPastOptions(os, [c, arg] + rest, None, screen);
  }

  // ---------------------------------------------------------------------
  // What main does after the option loop

  /** The decision main reaches: return early, or capture these coordinates
      into the named file (or the clipboard when there is no filename). */
  datatype Plan = Quit(why: Reason) | Shoot(coords: Coords, target: Option<string>)

  /** Coordinates come from the options; only without them does main read the
      window's selection, which must exist. */
  function Resolve(opts: Options, win: State): (p: Plan)
    ensures opts.Exit? ==> p == Quit(opts.why)
    ensures opts.Options? && opts.coords.Some? ==> p == Shoot(opts.coords.value, opts.filename)
  {
    match opts
    case Exit(why) => Quit(why)
    case Options(coords, filename) =>
      if coords.Some? then Shoot(coords.value, filename)
      else if win.haveCoords then
        Shoot(Coords(win.start.x, win.start.y, win.end.x, win.end.y), filename)
      else Quit(NoSelection)
  }

  /** Without -c or -f, main captures only when the pump saw a button-down
      followed by a move before the first button-up; the corners are then the
      last button-down and the last move made with the button held. */
  lemma SelectionDecides(opts: Options, start: Point, end: Point, pre: seq<Event>, post: seq<Event>)
    requires opts.Options? && opts.coords.None? && !HasUp(pre)
    ensures var p := Resolve(opts, Pump(Initial(start, end), pre + [Up] + post));
      var moves := DraggedMoves(pre, false);
      && (p.Shoot? <==> moves != [])
      && (p.Shoot? ==>
            var s, e := LastDown(pre, start), moves[|moves| - 1];
            p == Shoot(Coords(s.x, s.y, e.x, e.y), opts.filename))
  {
    PumpStopsAtFirstUp(start, end, pre, post);
    FirstUpSelection(start, end, pre);
  }

  /** Without -c or -f and without a button-up there is nothing to capture. */
  lemma NoUpNoCapture(opts: Options, start: Point, end: Point, es: seq<Event>)
    requires opts.Options? && opts.coords.None? && !HasUp(es)
    ensures Resolve(opts, Pump(Initial(start, end), es)) == Quit(NoSelection)
  {
    PumpWithoutUp(start, end, es);
  }

  /** `boxcutter -f file` (or `--fullscreen`) captures the screen rectangle
      into the file, whatever the window saw. */
  lemma FullScreenOption(prog: string, long: bool, filename: string, screen: Rect, w: State)
    requires !IsOption(filename)
    ensures Resolve(MainOptions([prog, FullScreenSpelling(long), filename], screen), w)
      == Shoot(Corners(screen), Some(filename))
  {
    var f := FullScreenSpelling(long);
    assert RenderOpts([FullScreen(long)]) == [f] by {
      assert RenderOpts([FullScreen(long)][1..]) == [];
    }
    assert [prog] + RenderOpts([FullScreen(long)]) + ([filename] + []) == [prog, f, filename];
    OptionsThenFilename(prog, [FullScreen(long)], filename, [], screen);
  }

  /** What `boxcutter -f file` copies. With GetScreenRect as written, the
      region spans from the origin to the point (cx, cy), normalised; with
      the corrected rectangle, it is the virtual screen, cx by cy from the
      origin. */
  lemma FullScreenPlan(prog: string, long: bool, filename: string, m: Metrics, w: State)
    requires !IsOption(filename)
    ensures var plan := Resolve(MainOptions([prog, FullScreenSpelling(long), filename], ScreenRect(m)), w);
      && plan.Shoot? && plan.target == Some(filename)
      && RegionOf(Normalized(plan.coords))
         == Blit(Min(m.x, m.cx), Min(m.y, m.cy), Abs(m.cx - m.x), Abs(m.cy - m.y))
    ensures m.cx >= 0 && m.cy >= 0 ==>
      var plan := Resolve(MainOptions([prog, FullScreenSpelling(long), filename], VirtualScreenRect(m)), w);
      && plan.Shoot? && plan.target == Some(filename)
      && RegionOf(Normalized(plan.coords)) == Blit(m.x, m.y, m.cx, m.cy)
  {
    FullScreenOption(prog, long, filename, ScreenRect(m), w);
    NormalizedRegion(Corners(ScreenRect(m)));
    FullScreenOption(prog, long, filename, VirtualScreenRect(m), w);
  }

  /** main in boxcutter.cpp. `screen` is the rectangle GetScreenRect reports
      for -f (ScreenRect of the metrics as written, VirtualScreenRect once
      corrected); `start0` and `end0` stand for the uninitialised corner members of the
      window; `events` are the mouse messages the pump would receive; `cap`
      and `clip` are the outcomes of the file and clipboard captures. Returns
      the exit code, the file system afterwards, the clipboard calls made and
      the region handed to BitBlt. */
  method BoxCutterMain(argv: seq<string>, screen: Rect, start0: Point, end0: Point,
                       events: seq<Event>, cap: CaptureOracle, clip: ClipOracle, env: Env)
    returns (code: int, env': Env, calls: seq<ClipCall>, blit: Option<Blit>)
    ensures var plan := Resolve(MainOptions(argv, screen), Pump(Initial(start0, end0), events));
      && (plan.Quit? ==> code == 1 && env' == env && calls == [] && blit == None)
      && (plan.Shoot? ==> blit == Some(RegionOf(Normalized(plan.coords))))
      && (plan.Shoot? && plan.target.Some? ==>
            (code == 0 <==> cap.bitBlt && SaveSucceeds(cap.save))
            && env' == EnvAfterCapture(cap, plan.target.value, env) && calls == [])
      && (plan.Shoot? && plan.target.None? ==>
            (code == 0 <==> ClipboardSucceeds(clip))
            && env' == env && calls == ClipCalls(clip))
    ensures code == 0 || code == 1
  {
    env', calls, blit := env, [], None;
    var opts := ParseOptions(argv, screen);
    if opts.Exit? {
      return 1, env', calls, blit;
    }
    var win := new BoxCutterWindow(start0, end0);
    var x1, y1, x2, y2;
    if opts.coords.Some? {
      var c := opts.coords.value;
      x1, y1, x2, y2 := c.x1, c.y1, c.x2, c.y2;
    } else {
      win.MainLoop(events);
      if win.HaveCoords() {
        x1, y1, x2, y2 := win.GetCoords();
      } else {
        return 1, env', calls, blit;
      }
    }
    var ok, b;
    if opts.filename.Some? {
      ok, b, env' := CaptureScreen(opts.filename.value, x1, y1, x2, y2, cap, env);
    } else {
      ok, b, calls := CaptureScreenClipboard(x1, y1, x2, y2, clip);
    }
    blit := Some(b);
    code := if ok then 0 else 1;
  }

  // ---------------------------------------------------------------------
  // main in boxcutter-fs.cpp

  /** main in boxcutter-fs.cpp: argv[1] is the filename, and the rectangle
      get_screen_rect reports (`screen`: ScreenRect of the metrics as
      written, VirtualScreenRect once corrected) is captured without
      normalisation. */
  method BoxCutterFsMain(argv: seq<string>, screen: Rect, o: CaptureOracle, env: Env)
    returns (code: int, env': Env, blit: Option<Blit>)
    ensures |argv| < 2 ==> code == 1 && env' == env && blit == None
    ensures |argv| >= 2 ==>
      && blit == Some(RegionOf(Corners(screen)))
      && (code == 0 <==> o.bitBlt && SaveSucceeds(o.save))
      && env' == EnvAfterCapture(o, argv[1], env)
    ensures code == 0 || code == 1
  {
    if |argv| < 2 {
      return 1, env, None;
    }
    var filename := argv[1];
    var ok, b;
    ok, b, env' := CaptureScreenFs(filename, screen.left, screen.top, screen.right, screen.bottom, o, env);
    blit := Some(b);
    code := if ok then 0 else 1;
  }

  /** With the rectangle get_screen_rect builds, the fs capture copies
      SM_CXVIRTUALSCREEN - SM_XVIRTUALSCREEN columns and
      SM_CYVIRTUALSCREEN - SM_YVIRTUALSCREEN rows from the virtual-screen
      origin. */
  lemma FsCaptureRegion(m: Metrics)
    ensures RegionOf(Corners(ScreenRect(m))) == Blit(m.x, m.y, m.cx - m.x, m.cy - m.y)
  {
  }
}
