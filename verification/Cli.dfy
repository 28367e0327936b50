/**
  The setup program's command line, and the relaunch of the uninstaller with elevated
  rights: the options are printed as a parameter line, split again by Windows in the new
  process, and parsed there.
 */
module Cli {
  import opened Wrappers
  import opened CommandLine

  datatype Role = InstallGui | InstallSilent | UninstallGui | UninstallSilent | ElevatedWorker

  datatype CliOptions = CliOptions(
    role: Role,
    installDir: string,
    clearUserData: bool,
    desktopShortcut: bool,
    startMenu: bool,
    quickLaunch: bool,
    launchApp: bool,
    elevatedPipe: string,
    elevatedToken: string,
    initiatingUserContext: bool,
    initiatingUserSid: string,
    userProfileRoot: string,
    localAppDataRoot: string,
    roamingAppDataRoot: string,
    configDir: string,
    tempRoot: string)

  const DEFAULTS := CliOptions(InstallGui, "", false, true, true, false, true, "", "", false, "", "", "", "", "", "")

  // ----- text helpers -----

  function LowerChar(c: char): char {
    if 'A' <= c <= 'Z' then c - 'A' + 'a' else c
  }

  function ToLowerAscii(s: string): (r: string)
    ensures |r| == |s|
  {
    seq(|s|, i requires 0 <= i < |s| => LowerChar(s[i]))
  }

  predicate EqualsIgnoreCase(a: string, b: string) {
    ToLowerAscii(a) == ToLowerAscii(b)
  }

  predicate StartsWithIgnoreCase(value: string, prefix: string) {
    |prefix| <= |value| && ToLowerAscii(value[..|prefix|]) == ToLowerAscii(prefix)
  }

  function ParseBoolFlag(arg: string, name: string): (r: Option<bool>) {
    if !StartsWithIgnoreCase(arg, name) || |arg| <= |name| then None
    else
      var v := arg[|name|..];
      if v == "1" || EqualsIgnoreCase(v, "true") || EqualsIgnoreCase(v, "yes") then Some(true)
      else if v == "0" || EqualsIgnoreCase(v, "false") || EqualsIgnoreCase(v, "no") then Some(false)
      else None
  }

  /** The text behind the last path separator. */
  function FileNameOf(path: string): (name: string) {
    if path == [] then []
    else if path[|path| - 1] == '\\' || path[|path| - 1] == '/' then []
    else FileNameOf(path[..|path| - 1]) + [path[|path| - 1]]
  }

  predicate IsUninstallExecutableName(path: string) {
    EqualsIgnoreCase(FileNameOf(path), "Uninstall.exe")
  }

  // ----- parsing -----

  datatype Scan = Scan(opts: CliOptions, silent: bool, uninstall: bool, elevated: bool)

  /** What one argument does: the new state and whether the next argument was its value; or refusal. */
  datatype ArgResult = Taken(scan: Scan, tookValue: bool) | Refused

  function Flag(s: Scan): ArgResult {
    Taken(s, false)
  }

  function Value(next: Option<string>, put: string -> Scan): ArgResult {
    if next.None? then Refused else Taken(put(next.value), true)
  }

  /** The options that take the following argument as their value. */
  function ScanValueArg(s: Scan, arg: string, next: Option<string>): Option<ArgResult> {
    if EqualsIgnoreCase(arg, "--initiating-user-sid") then
      Some(Value(next, v => s.(opts := s.opts.(initiatingUserSid := v))))
    else if EqualsIgnoreCase(arg, "--user-profile-root") then
      Some(Value(next, v => s.(opts := s.opts.(userProfileRoot := v))))
    else if EqualsIgnoreCase(arg, "--local-app-data-root") then
      Some(Value(next, v => s.(opts := s.opts.(localAppDataRoot := v))))
    else if EqualsIgnoreCase(arg, "--roaming-app-data-root") then
      Some(Value(next, v => s.(opts := s.opts.(roamingAppDataRoot := v))))
    else if EqualsIgnoreCase(arg, "--config-dir") then
      Some(Value(next, v => s.(opts := s.opts.(configDir := v))))
    else if EqualsIgnoreCase(arg, "--temp-root") then
      Some(Value(next, v => s.(opts := s.opts.(tempRoot := v))))
    else if EqualsIgnoreCase(arg, "--pipe") || EqualsIgnoreCase(arg, "/pipe") then
      Some(Value(next, v => s.(opts := s.opts.(elevatedPipe := v))))
    else if StartsWithIgnoreCase(arg, "--pipe=") then
      Some(Flag(s.(opts := s.opts.(elevatedPipe := arg[7..]))))
    else if EqualsIgnoreCase(arg, "--token") || EqualsIgnoreCase(arg, "/token") then
      Some(Value(next, v => s.(opts := s.opts.(elevatedToken := v))))
    else if StartsWithIgnoreCase(arg, "--token=") then
      Some(Flag(s.(opts := s.opts.(elevatedToken := arg[8..]))))
    else if StartsWithIgnoreCase(arg, "/D=") then
      Some(Flag(s.(opts := s.opts.(installDir := arg[3..]))))
    else if EqualsIgnoreCase(arg, "/D") then
      Some(Value(next, v => s.(opts := s.opts.(installDir := v))))
    else None
  }

  /** The yes/no options; anything else that looks like an option is refused, other text is skipped. */
  function ScanOtherArg(s: Scan, arg: string): ArgResult
    requires arg != []
  {
    var desktop, desktop2 := ParseBoolFlag(arg, "/desktop-shortcut="), ParseBoolFlag(arg, "--desktop-shortcut=");
    var menu, menu2 := ParseBoolFlag(arg, "/start-menu="), ParseBoolFlag(arg, "--start-menu=");
    var quick, quick2 := ParseBoolFlag(arg, "/quick-launch="), ParseBoolFlag(arg, "--quick-launch=");
    var launch, launch2 := ParseBoolFlag(arg, "/launch="), ParseBoolFlag(arg, "--launch=");
    if desktop.Some? then Flag(s.(opts := s.opts.(desktopShortcut := desktop.value)))
    else if desktop2.Some? then Flag(s.(opts := s.opts.(desktopShortcut := desktop2.value)))
    else if menu.Some? then Flag(s.(opts := s.opts.(startMenu := menu.value)))
    else if menu2.Some? then Flag(s.(opts := s.opts.(startMenu := menu2.value)))
    else if quick.Some? then Flag(s.(opts := s.opts.(quickLaunch := quick.value)))
    else if quick2.Some? then Flag(s.(opts := s.opts.(quickLaunch := quick2.value)))
    else if launch.Some? then Flag(s.(opts := s.opts.(launchApp := launch.value)))
    else if launch2.Some? then Flag(s.(opts := s.opts.(launchApp := launch2.value)))
    else if arg[0] == '/' || arg[0] == '-' then Refused
    else Flag(s)
  }

  /** One argument. */
  function ScanArg(s: Scan, arg: string, next: Option<string>): (r: ArgResult) {
    if arg == "" then Flag(s)
    else if EqualsIgnoreCase(arg, "/S") || EqualsIgnoreCase(arg, "/silent") || EqualsIgnoreCase(arg, "--silent") then
      Flag(s.(silent := true))
    else if EqualsIgnoreCase(arg, "/uninstall") || EqualsIgnoreCase(arg, "--uninstall") then
      Flag(s.(uninstall := true))
    else if EqualsIgnoreCase(arg, "/clear-user-data") || EqualsIgnoreCase(arg, "--clear-user-data") then
      Flag(s.(opts := s.opts.(clearUserData := true)))
    else if EqualsIgnoreCase(arg, "/elevated-worker") || EqualsIgnoreCase(arg, "--elevated-worker") then
      Flag(s.(elevated := true))
    else if EqualsIgnoreCase(arg, "--initiating-user-context") then
      Flag(s.(opts := s.opts.(initiatingUserContext := true)))
    else
      match ScanValueArg(s, arg, next)
      case Some(r) => r
      case None => ScanOtherArg(s, arg)
  }

  /** All arguments in order. */
  function ScanArgs(s: Scan, args: seq<string>): (r: Option<Scan>)
    decreases |args|
  {
    if args == [] then Some(s)
    else
      match ScanArg(s, args[0], if |args| > 1 then Some(args[1]) else None)
      case Refused => None
      case Taken(s', tookValue) => ScanArgs(s', args[if tookValue && |args| > 1 then 2 else 1..])
  }

  /** What the collected flags amount to. */
  function Conclude(s: Scan, defaultDir: string): (r: Option<CliOptions>) {
    if s.elevated then
      if s.opts.elevatedPipe == "" || s.opts.elevatedToken == "" then None
      else Some(s.opts.(role := ElevatedWorker))
    else if s.uninstall then
      Some(s.opts.(role := if s.silent then UninstallSilent else UninstallGui))
    else
      Some(s.opts.(role := if s.silent then InstallSilent else InstallGui,
                   installDir := if s.opts.installDir == "" then defaultDir else s.opts.installDir))
  }

  function StartScan(argv: seq<string>): Scan {
    Scan(DEFAULTS, false, argv != [] && IsUninstallExecutableName(argv[0]), false)
  }

  function ParseArgv(argv: seq<string>, defaultDir: string): (r: Option<CliOptions>) {
    match ScanArgs(StartScan(argv), if argv == [] then [] else argv[1..])
    case None => None
    case Some(s) => Conclude(s, defaultDir)
  }

  /** The loop over argv. */
  method ParseCli(argv: seq<string>, defaultDir: string) returns (r: Option<CliOptions>)
    ensures r == ParseArgv(argv, defaultDir)
  {
    hide ScanArg, IsUninstallExecutableName;
    var scan := StartScan(argv);
    var i := 1;
    ghost var goal := ScanArgs(scan, if argv == [] then [] else argv[1..]);
    while i < |argv|
      invariant i >= 1
      invariant goal == ScanArgs(scan, if i <= |argv| then argv[i..] else [])
      decreases |argv| - i
    {
      var next := if i + 1 < |argv| then Some(argv[i + 1]) else None;
      var step := ScanArg(scan, argv[i], next);
      if step.Refused? { return None; }
      ghost var rest := argv[i..];
      assert rest[1..] == argv[i + 1..];
      if step.tookValue {
        if i + 1 < |argv| { assert rest[2..] == argv[i + 2..]; }
        i := i + 1;
      }
      scan := step.scan;
      i := i + 1;
    }
    return Conclude(scan, defaultDir);
  }

  // ----- relaunching the uninstaller -----

  function FlagIf(condition: bool, flag: string): seq<Token> {
    if condition then [Plain(flag)] else []
  }

  function ValueIf(flag: string, value: string): seq<Token> {
    if value == "" then [] else [Plain(flag), Quoted(value)]
  }

  /** The string options that are passed on, with their flags and fields. */
  datatype Key = Dir | Sid | Profile | Local | Roaming | Config | Temp

  function Name(k: Key): (s: string)
    ensures s != ""
  {
    match k
    case Dir => "/D"
    case Sid => "--initiating-user-sid"
    case Profile => "--user-profile-root"
    case Local => "--local-app-data-root"
    case Roaming => "--roaming-app-data-root"
    case Config => "--config-dir"
    case Temp => "--temp-root"
  }

  function Get(o: CliOptions, k: Key): string {
    match k
    case Dir => o.installDir
    case Sid => o.initiatingUserSid
    case Profile => o.userProfileRoot
    case Local => o.localAppDataRoot
    case Roaming => o.roamingAppDataRoot
    case Config => o.configDir
    case Temp => o.tempRoot
  }

  function Put(o: CliOptions, k: Key, v: string): CliOptions {
    match k
    case Dir => o.(installDir := v)
    case Sid => o.(initiatingUserSid := v)
    case Profile => o.(userProfileRoot := v)
    case Local => o.(localAppDataRoot := v)
    case Roaming => o.(roamingAppDataRoot := v)
    case Config => o.(configDir := v)
    case Temp => o.(tempRoot := v)
  }

  const USER_KEYS := [Sid, Profile, Local, Roaming, Config, Temp]

  function ValueTokens(o: CliOptions, keys: seq<Key>): seq<Token> {
    if keys == [] then [] else ValueIf(Name(keys[0]), Get(o, keys[0])) + ValueTokens(o, keys[1..])
  }

  /** The parameters as tokens, in the order they are appended. */
  function ElevationTokens(o: CliOptions): seq<Token> {
    FlagIf(o.role == UninstallSilent, "/S")
    + (FlagIf(true, "/uninstall")
    + (FlagIf(o.clearUserData, "/clear-user-data")
    + (ValueTokens(o, [Dir])
    + (FlagIf(o.initiatingUserContext, "--initiating-user-context")
    + ValueTokens(o, USER_KEYS)))))
  }

  ghost predicate Printable(tokens: seq<Token>) {
    forall i :: 0 <= i < |tokens| ==> Print(tokens[i]) != ""
  }

  lemma {:induction false} LineAppend(tokens: seq<Token>, t: Token)
    ensures Line(tokens + [t]) == if tokens == [] then Print(t) else Line(tokens) + [' '] + Print(t)
  {
    hide Print;
    if tokens == [] {
      assert tokens + [t] == [t];
    } else if |tokens| == 1 {
      assert (tokens + [t])[1..] == [t];
    } else {
      assert (tokens + [t])[1..] == tokens[1..] + [t];
      LineAppend(tokens[1..], t);
    }
  }

  /** Appending one flag: a separating space unless the line is empty. */
  method AppendFlag(parameters: string, flag: string, ghost tokens: seq<Token>) returns (r: string)
    requires parameters == Line(tokens) && flag != "" && Printable(tokens)
    ensures r == Line(tokens + [Plain(flag)]) && Printable(tokens + [Plain(flag)])
  {
    r := parameters;
    LineAppend(tokens, Plain(flag));
    if r != "" { r := r + " "; }
    r := r + flag;
  }

  method AppendFlagIf(parameters: string, condition: bool, flag: string, ghost tokens: seq<Token>) returns (r: string)
    requires parameters == Line(tokens) && flag != "" && Printable(tokens)
    ensures r == Line(tokens + FlagIf(condition, flag)) && Printable(tokens + FlagIf(condition, flag))
  {
    hide Line;
    if condition {
      r := AppendFlag(parameters, flag, tokens);
    } else {
      assert tokens + [] == tokens;
      r := parameters;
    }
  }

  /** Appending a flag and its quoted value, unless the value is empty. */
  method AppendValue(parameters: string, flag: string, value: string, ghost tokens: seq<Token>) returns (r: string)
    requires parameters == Line(tokens) && flag != "" && Printable(tokens)
    ensures r == Line(tokens + ValueIf(flag, value)) && Printable(tokens + ValueIf(flag, value))
  {
    hide Line;
    if value == "" {
      assert tokens + [] == tokens;
      return parameters;
    }
    r := AppendFlag(parameters, flag, tokens);
    var quoted := QuoteCommandLineArgument(value);
    r := r + " ";
    r := r + quoted;
    LineAppend(tokens + [Plain(flag)], Quoted(value));
    assert (tokens + [Plain(flag)]) + [Quoted(value)] == tokens + ValueIf(flag, value);
  }

  /** Appending the values of some keys in turn, as the calls of the source do. */
  method AppendValues(parameters: string, o: CliOptions, keys: seq<Key>, ghost tokens: seq<Token>) returns (r: string)
    requires parameters == Line(tokens) && Printable(tokens)
    ensures r == Line(tokens + ValueTokens(o, keys)) && Printable(tokens + ValueTokens(o, keys))
  {
    hide Line, Printable, ValueIf, Name, Get;
    r := parameters;
    ghost var t := tokens;
    ghost var goal := tokens + ValueTokens(o, keys);
    for i := 0 to |keys|
      invariant r == Line(t) && Printable(t)
      invariant t + ValueTokens(o, keys[i..]) == goal
    {
      r := AppendValue(r, Name(keys[i]), Get(o, keys[i]), t);
      assert keys[i..][1..] == keys[i + 1..];
      t := t + ValueIf(Name(keys[i]), Get(o, keys[i]));
    }
    assert t + [] == t;
  }

  method BuildUninstallElevationParameters(o: CliOptions) returns (parameters: string)
    ensures parameters == Line(ElevationTokens(o))
  {
    hide Line, FlagIf, ValueTokens, Printable;
    ghost var t: seq<Token> := [];
    EmptyLine();
    parameters := "";
    parameters := AppendFlagIf(parameters, o.role == UninstallSilent, "/S", t);
    t := t + FlagIf(o.role == UninstallSilent, "/S");
    parameters := AppendFlagIf(parameters, true, "/uninstall", t);
    t := t + FlagIf(true, "/uninstall");
    parameters := AppendFlagIf(parameters, o.clearUserData, "/clear-user-data", t);
    t := t + FlagIf(o.clearUserData, "/clear-user-data");
    parameters := AppendValues(parameters, o, [Dir], t);
    t := t + ValueTokens(o, [Dir]);
    parameters := AppendFlagIf(parameters, o.initiatingUserContext, "--initiating-user-context", t);
    t := t + FlagIf(o.initiatingUserContext, "--initiating-user-context");
    parameters := AppendValues(parameters, o, USER_KEYS, t);
    Regroup(FlagIf(o.role == UninstallSilent, "/S"), FlagIf(true, "/uninstall"), FlagIf(o.clearUserData, "/clear-user-data"),
            ValueTokens(o, [Dir]), FlagIf(o.initiatingUserContext, "--initiating-user-context"), ValueTokens(o, USER_KEYS));
  }

  lemma EmptyLine()
    ensures Line([]) == "" && Printable([])
  {
  }

  lemma Regroup<T>(a: seq<T>, b: seq<T>, c: seq<T>, d: seq<T>, e: seq<T>, f: seq<T>)
    ensures [] + a + b + c + d + e + f == a + (b + (c + (d + (e + f))))
  {
  }

  // ----- the flags as the parser sees them -----

  lemma DifferentChar(a: string, b: string, i: nat)
    requires i < |a| && i < |b| && LowerChar(a[i]) != LowerChar(b[i])
    ensures !EqualsIgnoreCase(a, b)
  {
    assert ToLowerAscii(a)[i] == LowerChar(a[i]) && ToLowerAscii(b)[i] == LowerChar(b[i]);
  }

  lemma ScanSilent(s: Scan, next: Option<string>)
    ensures ScanArg(s, "/S", next) == Flag(s.(silent := true))
  {
  }

  lemma ScanUninstall(s: Scan, next: Option<string>)
    ensures ScanArg(s, "/uninstall", next) == Flag(s.(uninstall := true))
  {
  }

  lemma ScanClear(s: Scan, next: Option<string>)
    ensures ScanArg(s, "/clear-user-data", next) == Flag(s.(opts := s.opts.(clearUserData := true)))
  {
  }

  lemma ScanContext(s: Scan, next: Option<string>)
    ensures ScanArg(s, "--initiating-user-context", next) == Flag(s.(opts := s.opts.(initiatingUserContext := true)))
  {
  }

  /** Not one of the flags that stand alone. */
  predicate IsNoFlag(arg: string) {
    && arg != ""
    && !EqualsIgnoreCase(arg, "/S") && !EqualsIgnoreCase(arg, "/silent") && !EqualsIgnoreCase(arg, "--silent")
    && !EqualsIgnoreCase(arg, "/uninstall") && !EqualsIgnoreCase(arg, "--uninstall")
    && !EqualsIgnoreCase(arg, "/clear-user-data") && !EqualsIgnoreCase(arg, "--clear-user-data")
    && !EqualsIgnoreCase(arg, "/elevated-worker") && !EqualsIgnoreCase(arg, "--elevated-worker")
    && !EqualsIgnoreCase(arg, "--initiating-user-context")
  }

  lemma PastFlags(s: Scan, arg: string, next: Option<string>)
    requires IsNoFlag(arg) && ScanValueArg(s, arg, next).Some?
    ensures ScanArg(s, arg, next) == ScanValueArg(s, arg, next).value
  {
    hide EqualsIgnoreCase, ScanValueArg;
  }

  lemma DirIsNoFlag()
    ensures IsNoFlag("/D")
  {
    DifferentChar("/D", "/S", 1);
  }

  lemma DirValue(s: Scan, v: string)
    ensures ScanValueArg(s, "/D", Some(v)) == Some(Taken(s.(opts := s.opts.(installDir := v)), true))
  {
  }

  lemma ScanDir(s: Scan, v: string)
    ensures ScanArg(s, "/D", Some(v)) == Taken(s.(opts := s.opts.(installDir := v)), true)
  {
    hide IsNoFlag, ScanValueArg, ScanArg;
    DirIsNoFlag();
    DirValue(s, v);
    PastFlags(s, "/D", Some(v));
  }

  lemma ScanSid(s: Scan, v: string)
    ensures ScanArg(s, "--initiating-user-sid", Some(v)) == Taken(s.(opts := s.opts.(initiatingUserSid := v)), true)
  {
    hide ScanOtherArg;
  }

  lemma ScanProfile(s: Scan, v: string)
    ensures ScanArg(s, "--user-profile-root", Some(v)) == Taken(s.(opts := s.opts.(userProfileRoot := v)), true)
  {
    hide ScanOtherArg;
  }

  lemma ScanLocal(s: Scan, v: string)
    ensures ScanArg(s, "--local-app-data-root", Some(v)) == Taken(s.(opts := s.opts.(localAppDataRoot := v)), true)
  {
    hide ScanOtherArg;
    DifferentChar("--local-app-data-root", "--initiating-user-sid", 2);
  }

  lemma ScanRoaming(s: Scan, v: string)
    ensures ScanArg(s, "--roaming-app-data-root", Some(v)) == Taken(s.(opts := s.opts.(roamingAppDataRoot := v)), true)
  {
    hide ScanOtherArg;
  }

  lemma ScanConfig(s: Scan, v: string)
    ensures ScanArg(s, "--config-dir", Some(v)) == Taken(s.(opts := s.opts.(configDir := v)), true)
  {
    hide ScanOtherArg;
  }

  lemma TempIsNoFlag()
    ensures IsNoFlag("--temp-root")
  {
    DifferentChar("--temp-root", "--uninstall", 2);
  }

  lemma TempValue(s: Scan, v: string)
    ensures ScanValueArg(s, "--temp-root", Some(v)) == Some(Taken(s.(opts := s.opts.(tempRoot := v)), true))
  {
  }

  lemma ScanTemp(s: Scan, v: string)
    ensures ScanArg(s, "--temp-root", Some(v)) == Taken(s.(opts := s.opts.(tempRoot := v)), true)
  {
    hide IsNoFlag, ScanValueArg, ScanArg;
    TempIsNoFlag();
    TempValue(s, v);
    PastFlags(s, "--temp-root", Some(v));
  }

  lemma ScanKey(s: Scan, k: Key, v: string)
    ensures ScanArg(s, Name(k), Some(v)) == Taken(s.(opts := Put(s.opts, k, v)), true)
  {
    hide ScanArg;
    match k
    case Dir => ScanDir(s, v);
    case Sid => ScanSid(s, v);
    case Profile => ScanProfile(s, v);
    case Local => ScanLocal(s, v);
    case Roaming => ScanRoaming(s, v);
    case Config => ScanConfig(s, v);
    case Temp => ScanTemp(s, v);
  }

  // ----- the relaunch -----

  function NextOf(tokens: seq<Token>): Option<string> {
    if tokens == [] then None else Some(tokens[0].text)
  }

  lemma OptionalFlag(s: Scan, s': Scan, condition: bool, flag: string, rest: seq<Token>)
    requires condition ==> ScanArg(s, flag, NextOf(rest)) == Flag(s')
    requires !condition ==> s' == s
    ensures ScanArgs(s, Texts(FlagIf(condition, flag) + rest)) == ScanArgs(s', Texts(rest))
  {
    hide ScanArg;
    if condition {
      var args := Texts([Plain(flag)] + rest);
      assert args == [flag] + Texts(rest);
      assert args[1..] == Texts(rest);
    } else {
      assert [] + rest == rest;
    }
  }

  lemma OptionalValue(s: Scan, s': Scan, flag: string, value: string, rest: seq<Token>)
    requires ScanArg(s, flag, Some(value)) == Taken(s', true)
    requires value == "" ==> s' == s
    ensures ScanArgs(s, Texts(ValueIf(flag, value) + rest)) == ScanArgs(s', Texts(rest))
  {
    hide ScanArg;
    if value == "" {
      assert [] + rest == rest;
    } else {
      var args := Texts([Plain(flag), Quoted(value)] + rest);
      assert args == [flag, value] + Texts(rest);
      assert args[2..] == Texts(rest);
    }
  }

  /** Some fields copied from one set of options to another. */
  function CopyFields(to: CliOptions, from: CliOptions, keys: seq<Key>): CliOptions
    decreases |keys|
  {
    if keys == [] then to else CopyFields(Put(to, keys[0], Get(from, keys[0])), from, keys[1..])
  }

  lemma PutFacts(o: CliOptions, k: Key, v: string)
    ensures Get(o, k) == v ==> Put(o, k, v) == o
    ensures forall k' :: k' != k ==> Get(Put(o, k, v), k') == Get(o, k')
  {
  }

  ghost predicate Distinct(keys: seq<Key>) {
    forall i, j :: 0 <= i < j < |keys| ==> keys[i] != keys[j]
  }

  /** Scanning the printed values copies the fields. */
  lemma {:induction false} ScanValueTokens(s: Scan, o: CliOptions, keys: seq<Key>, rest: seq<Token>)
    requires Distinct(keys) && forall i :: 0 <= i < |keys| ==> Get(s.opts, keys[i]) == ""
    ensures ScanArgs(s, Texts(ValueTokens(o, keys) + rest))
         == ScanArgs(s.(opts := CopyFields(s.opts, o, keys)), Texts(rest))
    decreases |keys|
  {
    hide ScanArg, ScanArgs, Texts, ValueIf, Name, Get, Put;
    if keys == [] {
      assert [] + rest == rest;
    } else {
      var k := keys[0];
      var v, more := Get(o, k), ValueTokens(o, keys[1..]) + rest;
      var s' := s.(opts := Put(s.opts, k, v));
      assert ValueTokens(o, keys) + rest == ValueIf(Name(k), v) + more;
      ScanKey(s, k, v);
      PutFacts(s.opts, k, v);
      OptionalValue(s, s', Name(k), v, more);
      ScanValueTokens(s', o, keys[1..], rest);
    }
  }

  /** The options a relaunched uninstaller must end up with. */
  function Restored(o: CliOptions): CliOptions {
    DEFAULTS.(
      role := if o.role == UninstallSilent then UninstallSilent else UninstallGui,
      installDir := o.installDir,
      clearUserData := o.clearUserData,
      initiatingUserContext := o.initiatingUserContext,
      initiatingUserSid := o.initiatingUserSid,
      userProfileRoot := o.userProfileRoot,
      localAppDataRoot := o.localAppDataRoot,
      roamingAppDataRoot := o.roamingAppDataRoot,
      configDir := o.configDir,
      tempRoot := o.tempRoot)
  }

  lemma CopyDir(to: CliOptions, from: CliOptions)
    ensures CopyFields(to, from, [Dir]) == to.(installDir := from.installDir)
  {
    assert [Dir][1..] == [];
  }

  lemma CopyUser(to: CliOptions, from: CliOptions)
    ensures CopyFields(to, from, USER_KEYS)
         == to.(initiatingUserSid := from.initiatingUserSid, userProfileRoot := from.userProfileRoot,
                localAppDataRoot := from.localAppDataRoot, roamingAppDataRoot := from.roamingAppDataRoot,
                configDir := from.configDir, tempRoot := from.tempRoot)
  {
    var k := USER_KEYS;
    assert k[1..] == [Profile, Local, Roaming, Config, Temp];
    assert k[1..][1..] == [Local, Roaming, Config, Temp];
    assert k[1..][1..][1..] == [Roaming, Config, Temp];
    assert k[1..][1..][1..][1..] == [Config, Temp];
    assert [Config, Temp][1..] == [Temp] && [Temp][1..] == [];
    var t1 := Put(to, Sid, from.initiatingUserSid);
    var t2 := Put(t1, Profile, from.userProfileRoot);
    var t3 := Put(t2, Local, from.localAppDataRoot);
    var t4 := Put(t3, Roaming, from.roamingAppDataRoot);
    assert CopyFields(t4, from, [Config, Temp]) == Put(Put(t4, Config, from.configDir), Temp, from.tempRoot);
    assert CopyFields(t2, from, [Local, Roaming, Config, Temp]) == CopyFields(t4, from, [Config, Temp]);
  }

  lemma ScanElevation(s: Scan, o: CliOptions)
    requires s.opts == DEFAULTS && !s.silent && !s.elevated
    ensures
      var r := ScanArgs(s, Texts(ElevationTokens(o)));
      && r.Some? && r.value.opts == Restored(o).(role := DEFAULTS.role)
      && r.value.silent == (o.role == UninstallSilent) && r.value.uninstall && !r.value.elevated
  {
    hide ScanArgs, ValueTokens, Texts;
    ScanFlags(s, o, ContextTokens(o));
    var s2 := s.(silent := o.role == UninstallSilent, uninstall := true);
    ScanContextTokens(s2.(opts := s2.opts.(clearUserData := o.clearUserData)), o);
  }

  /** The second half of the tokens: the directory and the user context. */
  function ContextTokens(o: CliOptions): seq<Token> {
    ValueTokens(o, [Dir]) + (FlagIf(o.initiatingUserContext, "--initiating-user-context") + ValueTokens(o, USER_KEYS))
  }

  lemma ScanFlags(s: Scan, o: CliOptions, rest: seq<Token>)
    ensures
      ScanArgs(s, Texts(FlagIf(o.role == UninstallSilent, "/S") + (FlagIf(true, "/uninstall") + (FlagIf(o.clearUserData, "/clear-user-data") + rest))))
      == ScanArgs(s.(silent := s.silent || o.role == UninstallSilent, uninstall := true,
                     opts := s.opts.(clearUserData := s.opts.clearUserData || o.clearUserData)), Texts(rest))
  {
    hide ScanArg, ScanArgs, FlagIf, Texts;
    var s1 := s.(silent := s.silent || o.role == UninstallSilent);
    var s2 := s1.(uninstall := true);
    var s3 := s2.(opts := s2.opts.(clearUserData := s2.opts.clearUserData || o.clearUserData));
    var t2 := FlagIf(o.clearUserData, "/clear-user-data") + rest;
    var t1 := FlagIf(true, "/uninstall") + t2;
    ScanSilent(s, NextOf(t1));
    ScanUninstall(s1, NextOf(t2));
    ScanClear(s2, NextOf(rest));
    OptionalFlag(s, s1, o.role == UninstallSilent, "/S", t1);
    OptionalFlag(s1, s2, true, "/uninstall", t2);
    OptionalFlag(s2, s3, o.clearUserData, "/clear-user-data", rest);
  }

  lemma ScanContextTokens(s: Scan, o: CliOptions)
    requires s.opts == DEFAULTS.(clearUserData := o.clearUserData)
    ensures
      var r := ScanArgs(s, Texts(ContextTokens(o)));
      r.Some? && r.value == s.(opts := Restored(o).(role := DEFAULTS.role))
  {
    hide ScanArg, ScanArgs, FlagIf, ValueTokens, Texts, CopyFields;
    var s4 := s.(opts := s.opts.(installDir := o.installDir));
    var s5 := s4.(opts := s4.opts.(initiatingUserContext := o.initiatingUserContext));
    var t5 := ValueTokens(o, USER_KEYS);
    ScanContext(s4, NextOf(t5));
    ScanValueTokens(s, o, [Dir], FlagIf(o.initiatingUserContext, "--initiating-user-context") + t5);
    CopyDir(s.opts, o);
    OptionalFlag(s4, s5, o.initiatingUserContext, "--initiating-user-context", t5);
    ScanValueTokens(s5, o, USER_KEYS, []);
    CopyUser(s5.opts, o);
    assert t5 + [] == t5;
    ScanNothing(s5.(opts := CopyFields(s5.opts, o, USER_KEYS)));
  }

  lemma ScanNothing(s: Scan)
    ensures ScanArgs(s, Texts([])) == Some(s)
  {
  }

  ghost predicate AllPlain(tokens: seq<Token>) {
    forall i :: 0 <= i < |tokens| && tokens[i].Plain? ==> IsPlain(tokens[i].text)
  }

  lemma PlainAppend(a: seq<Token>, b: seq<Token>)
    requires AllPlain(a) && AllPlain(b)
    ensures AllPlain(a + b)
  {
    hide IsPlain;
  }

  lemma FlagIsPlain(condition: bool, flag: string)
    requires IsPlain(flag)
    ensures AllPlain(FlagIf(condition, flag))
  {
    hide IsPlain;
  }

  lemma ValueIsPlain(flag: string, value: string)
    requires IsPlain(flag)
    ensures AllPlain(ValueIf(flag, value))
  {
    hide IsPlain;
  }

  lemma NamesArePlain(k: Key)
    ensures IsPlain(Name(k))
  {
    hide IsPlain;
    SomeNamesArePlain();
    OtherNamesArePlain();
  }

  lemma SomeNamesArePlain()
    ensures IsPlain("--initiating-user-sid") && IsPlain("--user-profile-root") && IsPlain("--local-app-data-root")
  {
  }

  lemma OtherNamesArePlain()
    ensures IsPlain("--roaming-app-data-root") && IsPlain("--config-dir") && IsPlain("--temp-root") && IsPlain("/D")
  {
  }

  lemma FlagsArePlain()
    ensures IsPlain("/S") && IsPlain("/uninstall") && IsPlain("/clear-user-data") && IsPlain("--initiating-user-context")
  {
  }

  lemma {:induction false} ValueTokensArePlain(o: CliOptions, keys: seq<Key>)
    ensures AllPlain(ValueTokens(o, keys))
  {
    hide AllPlain, ValueIf, Name, Get;
    if keys == [] {
      NoTokens();
    } else {
      NamesArePlain(keys[0]);
      ValueIsPlain(Name(keys[0]), Get(o, keys[0]));
      ValueTokensArePlain(o, keys[1..]);
      PlainAppend(ValueIf(Name(keys[0]), Get(o, keys[0])), ValueTokens(o, keys[1..]));
    }
  }

  lemma NoTokens()
    ensures AllPlain([])
  {
  }

  lemma TokensArePlain(o: CliOptions)
    ensures AllPlain(ElevationTokens(o))
  {
    hide AllPlain, FlagIf, ValueTokens, IsPlain;
    FlagsArePlain();
    ValueTokensArePlain(o, [Dir]);
    ValueTokensArePlain(o, USER_KEYS);
    var t6, t5, t4 := ValueTokens(o, USER_KEYS), FlagIf(o.initiatingUserContext, "--initiating-user-context"), ValueTokens(o, [Dir]);
    var t3, t2, t1 := FlagIf(o.clearUserData, "/clear-user-data"), FlagIf(true, "/uninstall"),
                      FlagIf(o.role == UninstallSilent, "/S");
    FlagIsPlain(o.initiatingUserContext, "--initiating-user-context");
    FlagIsPlain(o.clearUserData, "/clear-user-data");
    FlagIsPlain(true, "/uninstall");
    FlagIsPlain(o.role == UninstallSilent, "/S");
    PlainAppend(t5, t6);
    PlainAppend(t4, t5 + t6);
    PlainAppend(t3, t4 + (t5 + t6));
    PlainAppend(t2, t3 + (t4 + (t5 + t6)));
    PlainAppend(t1, t2 + (t3 + (t4 + (t5 + t6))));
  }

  /** The relaunch restores role, flags, install directory and the whole user context, whatever the
      strings contain and whatever the executable is called. */
  lemma RelaunchRestores(exe: string, o: CliOptions, defaultDir: string)
    ensures ParseArgv([exe] + Arguments(Line(ElevationTokens(o))), defaultDir) == Some(Restored(o))
  {
    hide ElevationTokens, Arguments, Line, ScanArgs, Texts, IsUninstallExecutableName, IsPlain;
    TokensArePlain(o);
    ArgumentsOfLine(ElevationTokens(o));
    var argv := [exe] + Texts(ElevationTokens(o));
    assert argv[1..] == Texts(ElevationTokens(o));
    ScanElevation(StartScan(argv), o);
  }
}
