/**
  What a whole command line of the setup program means.

  A command line is any list of options, in any order and with any repetitions. The
  claim is that each setting is decided by the last option that names it, whatever
  stands around it, that the role follows from three switches and the executable's
  name, and that an argument that is no option, or lacks its value, refuses the line.
 */
module SetupOptions {
  import opened Wrappers
  import opened Cli

  datatype Switch = Silently | Uninstalling | Clearing | Working | WithContext

  datatype Toggle = DesktopShortcut | StartMenu | QuickLaunch | LaunchApp

  /** The settings that hold text. */
  datatype Field = Of(key: Key) | Pipe | Token

  /** One option as it is written. `Noise` is text that is no option. */
  datatype Opt =
    | On(switch: Switch, name: string)
    | Choose(toggle: Toggle, dashed: bool, word: string)
    | Set(field: Field, name: string, value: string)
    | Join(field: Field, value: string)
    | Noise(text: string)

  function SwitchNames(s: Switch): set<string> {
    match s
    case Silently => {"/S", "/silent", "--silent"}
    case Uninstalling => {"/uninstall", "--uninstall"}
    case Clearing => {"/clear-user-data", "--clear-user-data"}
    case Working => {"/elevated-worker", "--elevated-worker"}
    case WithContext => {"--initiating-user-context"}
  }

  function ToggleName(t: Toggle, dashed: bool): string {
    match t
    case DesktopShortcut => if dashed then "--desktop-shortcut=" else "/desktop-shortcut="
    case StartMenu => if dashed then "--start-menu=" else "/start-menu="
    case QuickLaunch => if dashed then "--quick-launch=" else "/quick-launch="
    case LaunchApp => if dashed then "--launch=" else "/launch="
  }

  function Truth(word: string): Option<bool> {
    if word in {"1", "true", "yes"} then Some(true)
    else if word in {"0", "false", "no"} then Some(false)
    else None
  }

  function FieldNames(f: Field): set<string> {
    match f
    case Of(k) => {Name(k)}
    case Pipe => {"--pipe", "/pipe"}
    case Token => {"--token", "/token"}
  }

  function JoinName(f: Field): string {
    match f
    case Of(_) => "/D="
    case Pipe => "--pipe="
    case Token => "--token="
  }

  predicate LooksLikeOption(text: string) {
    text != "" && (text[0] == '/' || text[0] == '-')
  }

  predicate Written(o: Opt) {
    match o
    case On(s, name) => name in SwitchNames(s)
    case Choose(_, _, word) => Truth(word).Some?
    case Set(f, name, _) => name in FieldNames(f)
    case Join(f, _) => f.Of? ==> f.key == Dir
    case Noise(text) => !LooksLikeOption(text)
  }

  function Spell(o: Opt): seq<string> {
    match o
    case On(_, name) => [name]
    case Choose(t, dashed, word) => [ToggleName(t, dashed) + word]
    case Set(_, name, value) => [name, value]
    case Join(f, value) => [JoinName(f) + value]
    case Noise(text) => [text]
  }

  ghost predicate AllWritten(options: seq<Opt>) {
    forall i :: 0 <= i < |options| ==> Written(options[i])
  }

  function Spelled(options: seq<Opt>): seq<string> {
    if options == [] then [] else Spelled(options[..|options| - 1]) + Spell(options[|options| - 1])
  }

  // ----- the meaning: the last option that names a setting decides it -----

  function TextAfter(options: seq<Opt>, f: Field, start: string): string {
    if options == [] then start
    else
      var o := options[|options| - 1];
      if (o.Set? || o.Join?) && o.field == f then o.value else TextAfter(options[..|options| - 1], f, start)
  }

  function ChoiceAfter(options: seq<Opt>, t: Toggle, start: bool): bool {
    if options == [] then start
    else
      var o := options[|options| - 1];
      if o.Choose? && o.toggle == t && Truth(o.word).Some? then Truth(o.word).value
      else ChoiceAfter(options[..|options| - 1], t, start)
  }

  predicate Given(options: seq<Opt>, s: Switch) {
    exists i :: 0 <= i < |options| && options[i].On? && options[i].switch == s
  }

  // ----- case -----

  lemma CasePrefix(a: string, b: string, prefix: string)
    requires EqualsIgnoreCase(a, b)
    ensures StartsWithIgnoreCase(a, prefix) <==> StartsWithIgnoreCase(b, prefix)
  {
    assert |a| == |ToLowerAscii(a)| == |b|;
    if |prefix| <= |a| {
      assert ToLowerAscii(a[..|prefix|]) == ToLowerAscii(a)[..|prefix|];
      assert ToLowerAscii(b[..|prefix|]) == ToLowerAscii(b)[..|prefix|];
    }
  }

  lemma CaseTail(a: string, b: string, n: nat)
    requires EqualsIgnoreCase(a, b) && n <= |a|
    ensures n <= |b| && EqualsIgnoreCase(a[n..], b[n..])
  {
    assert |a| == |ToLowerAscii(a)| == |b|;
    assert ToLowerAscii(a[n..]) == ToLowerAscii(a)[n..];
    assert ToLowerAscii(b[n..]) == ToLowerAscii(b)[n..];
  }

  lemma CaseFree(a: string, b: string)
    requires EqualsIgnoreCase(a, b)
    ensures |a| == |b| && (a == "1" <==> b == "1") && (a == "0" <==> b == "0")
    ensures LooksLikeOption(a) <==> LooksLikeOption(b)
  {
    assert |a| == |ToLowerAscii(a)| == |b|;
    if a != "" {
      assert ToLowerAscii(a)[0] == LowerChar(a[0]) && ToLowerAscii(b)[0] == LowerChar(b[0]);
    }
  }

  lemma CaseFlag(a: string, b: string, name: string)
    requires EqualsIgnoreCase(a, b)
    ensures ParseBoolFlag(a, name) == ParseBoolFlag(b, name)
  {
    CasePrefix(a, b, name);
    CaseFree(a, b);
    if |name| < |a| {
      CaseTail(a, b, |name|);
      CaseFree(a[|name|..], b[|name|..]);
    }
  }

  lemma CaseOther(s: Scan, a: string, b: string)
    requires EqualsIgnoreCase(a, b) && a != ""
    ensures b != "" && ScanOtherArg(s, a) == ScanOtherArg(s, b)
  {
    hide EqualsIgnoreCase, ParseBoolFlag;
    CaseFree(a, b);
    CaseFlag(a, b, "/desktop-shortcut=");
    CaseFlag(a, b, "--desktop-shortcut=");
    CaseFlag(a, b, "/start-menu=");
    CaseFlag(a, b, "--start-menu=");
    CaseFlag(a, b, "/quick-launch=");
    CaseFlag(a, b, "--quick-launch=");
    CaseFlag(a, b, "/launch=");
    CaseFlag(a, b, "--launch=");
  }

  predicate HasJoined(arg: string) {
    StartsWithIgnoreCase(arg, "--pipe=") || StartsWithIgnoreCase(arg, "--token=") || StartsWithIgnoreCase(arg, "/D=")
  }

  lemma CaseValue(s: Scan, a: string, b: string, next: Option<string>)
    requires EqualsIgnoreCase(a, b) && !HasJoined(a)
    ensures ScanValueArg(s, a, next) == ScanValueArg(s, b, next)
  {
    hide StartsWithIgnoreCase;
    CasePrefix(a, b, "--pipe=");
    CasePrefix(a, b, "--token=");
    CasePrefix(a, b, "/D=");
  }

  /** The same letters, perhaps in the other case. */
  ghost predicate SameLetters(a: string, b: string) {
    |a| == |b| && forall i :: 0 <= i < |a| ==>
      a[i] == b[i] || ('a' <= a[i] <= 'z' && b[i] == a[i] - 'a' + 'A') || ('a' <= b[i] <= 'z' && a[i] == b[i] - 'a' + 'A')
  }

  lemma SameLettersMatch(a: string, b: string)
    requires SameLetters(a, b)
    ensures EqualsIgnoreCase(a, b)
  {
  }

  /** Upper and lower case are the same in an argument, but for the text a joined option carries. */
  lemma CaseBlind(s: Scan, a: string, b: string, next: Option<string>)
    requires SameLetters(a, b) && !HasJoined(a)
    ensures ScanArg(s, a, next) == ScanArg(s, b, next)
  {
    hide ScanValueArg, ScanOtherArg, HasJoined, SameLetters;
    SameLettersMatch(a, b);
    CaseFree(a, b);
    CaseValue(s, a, b, next);
    if a != "" {
      CaseOther(s, a, b);
    }
  }

  // ----- one option -----

  /** An argument that differs from a name at one place neither is that name nor starts with it. */
  lemma Elsewhere(arg: string, name: string, i: nat)
    requires i < |arg| && i < |name| && LowerChar(arg[i]) != LowerChar(name[i])
    ensures !EqualsIgnoreCase(arg, name) && !StartsWithIgnoreCase(arg, name)
  {
    assert ToLowerAscii(arg)[i] == LowerChar(arg[i]) && ToLowerAscii(name)[i] == LowerChar(name[i]);
    if |name| <= |arg| {
      assert ToLowerAscii(arg[..|name|])[i] == LowerChar(arg[i]);
    }
  }

  lemma SwitchScan(s: Scan, sw: Switch, name: string, next: Option<string>)
    requires name in SwitchNames(sw)
    ensures ScanArg(s, name, next) == Flag(Flip(s, sw))
  {
    hide ScanArg;
    if sw == Silently {
      SilentScan(s, name, next);
    } else {
      ScanUninstall(s, next);
      DashUninstall(s, next);
      ScanClear(s, next);
      DashClear(s, next);
      SlashWorker(s, next);
      DashWorker(s, next);
      ScanContext(s, next);
    }
  }

  function Flip(s: Scan, sw: Switch): Scan {
    match sw
    case Silently => s.(silent := true)
    case Uninstalling => s.(uninstall := true)
    case Clearing => s.(opts := s.opts.(clearUserData := true))
    case Working => s.(elevated := true)
    case WithContext => s.(opts := s.opts.(initiatingUserContext := true))
  }

  lemma SilentScan(s: Scan, name: string, next: Option<string>)
    requires name in SwitchNames(Silently)
    ensures ScanArg(s, name, next) == Flag(Flip(s, Silently))
  {
    hide ScanValueArg, ScanOtherArg, ToLowerAscii;
  }

  lemma DashUninstall(s: Scan, next: Option<string>)
    ensures ScanArg(s, "--uninstall", next) == Flag(Flip(s, Uninstalling))
  {
    hide ScanValueArg, ScanOtherArg;
  }

  lemma DashClear(s: Scan, next: Option<string>)
    ensures ScanArg(s, "--clear-user-data", next) == Flag(Flip(s, Clearing))
  {
    hide ScanValueArg, ScanOtherArg;
  }

  lemma SlashWorker(s: Scan, next: Option<string>)
    ensures ScanArg(s, "/elevated-worker", next) == Flag(Flip(s, Working))
  {
    hide ScanValueArg, ScanOtherArg;
    DifferentChar("/elevated-worker", "/clear-user-data", 1);
  }

  lemma DashWorker(s: Scan, next: Option<string>)
    ensures ScanArg(s, "--elevated-worker", next) == Flag(Flip(s, Working))
  {
    hide ScanValueArg, ScanOtherArg;
    DifferentChar("--elevated-worker", "--clear-user-data", 2);
  }


  // the options that carry text

  function PutText(o: CliOptions, f: Field, v: string): CliOptions {
    match f
    case Of(k) => Put(o, k, v)
    case Pipe => o.(elevatedPipe := v)
    case Token => o.(elevatedToken := v)
  }

  lemma PipeIsNoFlag()
    ensures IsNoFlag("--pipe")
  {
  }

  lemma PipeValue(s: Scan, v: string)
    ensures ScanValueArg(s, "--pipe", Some(v)) == Some(Taken(s.(opts := PutText(s.opts, Pipe, v)), true))
  {
  }

  lemma PipeScan(s: Scan, v: string)
    ensures ScanArg(s, "--pipe", Some(v)) == Taken(s.(opts := PutText(s.opts, Pipe, v)), true)
  {
    hide IsNoFlag, ScanValueArg, ScanArg;
    PipeIsNoFlag();
    PipeValue(s, v);
    PastFlags(s, "--pipe", Some(v));
  }

  lemma SlashPipeIsNoFlag()
    ensures IsNoFlag("/pipe")
  {
  }

  lemma SlashPipeValue(s: Scan, v: string)
    ensures ScanValueArg(s, "/pipe", Some(v)) == Some(Taken(s.(opts := PutText(s.opts, Pipe, v)), true))
  {
  }

  lemma SlashPipeScan(s: Scan, v: string)
    ensures ScanArg(s, "/pipe", Some(v)) == Taken(s.(opts := PutText(s.opts, Pipe, v)), true)
  {
    hide IsNoFlag, ScanValueArg, ScanArg;
    SlashPipeIsNoFlag();
    SlashPipeValue(s, v);
    PastFlags(s, "/pipe", Some(v));
  }

  lemma TokenIsNoFlag()
    ensures IsNoFlag("--token")
  {
    Elsewhere("--token", "/silent", 0);
  }

  lemma TokenValue(s: Scan, v: string)
    ensures ScanValueArg(s, "--token", Some(v)) == Some(Taken(s.(opts := PutText(s.opts, Token, v)), true))
  {
    Elsewhere("--token", "--pipe=", 2);
  }

  lemma TokenScan(s: Scan, v: string)
    ensures ScanArg(s, "--token", Some(v)) == Taken(s.(opts := PutText(s.opts, Token, v)), true)
  {
    hide IsNoFlag, ScanValueArg, ScanArg;
    TokenIsNoFlag();
    TokenValue(s, v);
    PastFlags(s, "--token", Some(v));
  }

  lemma SlashTokenIsNoFlag()
    ensures IsNoFlag("/token")
  {
  }

  lemma SlashTokenValue(s: Scan, v: string)
    ensures ScanValueArg(s, "/token", Some(v)) == Some(Taken(s.(opts := PutText(s.opts, Token, v)), true))
  {
    Elsewhere("/token", "--pipe", 0);
  }

  lemma SlashTokenScan(s: Scan, v: string)
    ensures ScanArg(s, "/token", Some(v)) == Taken(s.(opts := PutText(s.opts, Token, v)), true)
  {
    hide IsNoFlag, ScanValueArg, ScanArg;
    SlashTokenIsNoFlag();
    SlashTokenValue(s, v);
    PastFlags(s, "/token", Some(v));
  }

  lemma SetScan(s: Scan, f: Field, name: string, v: string)
    requires name in FieldNames(f)
    ensures ScanArg(s, name, Some(v)) == Taken(s.(opts := PutText(s.opts, f, v)), true)
  {
    hide ScanArg, Name;
    match f
    case Of(k) => ScanKey(s, k, v);
    case Pipe =>
      PipeScan(s, v);
      SlashPipeScan(s, v);
    case Token =>
      TokenScan(s, v);
      SlashTokenScan(s, v);
  }

  // text that is no option

  /** No option takes this argument, or looks at what follows it. */
  predicate TakesNothing(arg: string) {
    && !EqualsIgnoreCase(arg, "--initiating-user-sid") && !EqualsIgnoreCase(arg, "--user-profile-root")
    && !EqualsIgnoreCase(arg, "--local-app-data-root") && !EqualsIgnoreCase(arg, "--roaming-app-data-root")
    && !EqualsIgnoreCase(arg, "--config-dir") && !EqualsIgnoreCase(arg, "--temp-root")
    && !EqualsIgnoreCase(arg, "--pipe") && !EqualsIgnoreCase(arg, "/pipe")
    && !EqualsIgnoreCase(arg, "--token") && !EqualsIgnoreCase(arg, "/token")
    && !EqualsIgnoreCase(arg, "/D") && !HasJoined(arg)
  }

  lemma FallsThrough(s: Scan, arg: string, next: Option<string>)
    requires IsNoFlag(arg) && TakesNothing(arg)
    ensures ScanArg(s, arg, next) == ScanOtherArg(s, arg)
  {
    hide EqualsIgnoreCase, StartsWithIgnoreCase, ScanOtherArg;
  }

  lemma NoiseIsNoFlag(text: string)
    requires text != "" && !LooksLikeOption(text)
    ensures IsNoFlag(text)
  {
    hide EqualsIgnoreCase, StartsWithIgnoreCase;
    Elsewhere(text, "/S", 0);
    Elsewhere(text, "/silent", 0);
    Elsewhere(text, "--silent", 0);
    Elsewhere(text, "/uninstall", 0);
    Elsewhere(text, "--uninstall", 0);
    Elsewhere(text, "/clear-user-data", 0);
    Elsewhere(text, "--clear-user-data", 0);
    Elsewhere(text, "/elevated-worker", 0);
    Elsewhere(text, "--elevated-worker", 0);
    Elsewhere(text, "--initiating-user-context", 0);
  }

  lemma NoiseTakesNothing(text: string)
    requires text != "" && !LooksLikeOption(text)
    ensures TakesNothing(text)
  {
    hide EqualsIgnoreCase, StartsWithIgnoreCase;
    Elsewhere(text, "--initiating-user-sid", 0);
    Elsewhere(text, "--user-profile-root", 0);
    Elsewhere(text, "--local-app-data-root", 0);
    Elsewhere(text, "--roaming-app-data-root", 0);
    Elsewhere(text, "--config-dir", 0);
    Elsewhere(text, "--temp-root", 0);
    Elsewhere(text, "--pipe", 0);
    Elsewhere(text, "--pipe=", 0);
    Elsewhere(text, "/pipe", 0);
    Elsewhere(text, "--token", 0);
    Elsewhere(text, "--token=", 0);
    Elsewhere(text, "/token", 0);
    Elsewhere(text, "/D", 0);
    Elsewhere(text, "/D=", 0);
  }

  lemma Unflagged(arg: string, name: string, i: nat)
    requires i < |arg| && i < |name| && LowerChar(arg[i]) != LowerChar(name[i])
    ensures ParseBoolFlag(arg, name) == None
  {
    Elsewhere(arg, name, i);
  }

  lemma NoiseIsNoToggle(s: Scan, text: string)
    requires text != "" && !LooksLikeOption(text)
    ensures ScanOtherArg(s, text) == Flag(s)
  {
    hide ParseBoolFlag;
    Unflagged(text, "/desktop-shortcut=", 0);
    Unflagged(text, "--desktop-shortcut=", 0);
    Unflagged(text, "/start-menu=", 0);
    Unflagged(text, "--start-menu=", 0);
    Unflagged(text, "/quick-launch=", 0);
    Unflagged(text, "--quick-launch=", 0);
    Unflagged(text, "/launch=", 0);
    Unflagged(text, "--launch=", 0);
  }

  /** Text that starts with neither a slash nor a dash is passed over. */
  lemma NoiseScan(s: Scan, text: string, next: Option<string>)
    requires !LooksLikeOption(text)
    ensures ScanArg(s, text, next) == Flag(s)
  {
    if text != "" {
      NoiseIsNoFlag(text);
      NoiseTakesNothing(text);
      FallsThrough(s, text, next);
      NoiseIsNoToggle(s, text);
    }
    hide IsNoFlag, TakesNothing, ScanOtherArg, ScanValueArg, EqualsIgnoreCase;
  }

  lemma LongerThan(arg: string, name: string)
    requires |name| != |arg|
    ensures !EqualsIgnoreCase(arg, name)
  {
    assert |ToLowerAscii(arg)| == |arg| && |ToLowerAscii(name)| == |name|;
  }

  // two characters behind the slash or the dashes tell the names apart

  lemma SlashNoFlag(arg: string, c: char, d: char)
    requires |arg| > 2 && arg[0] == '/'
    requires c == LowerChar(arg[1]) && d == LowerChar(arg[2])
    requires (c, d) !in {('s', 'i'), ('u', 'n'), ('c', 'l'), ('e', 'l')}
    ensures IsNoFlag(arg)
  {
    hide EqualsIgnoreCase, StartsWithIgnoreCase;
    LongerThan(arg, "/S");
    Elsewhere(arg, "/silent", if c == 's' then 2 else 1);
    Elsewhere(arg, "--silent", 0);
    Elsewhere(arg, "/uninstall", if c == 'u' then 2 else 1);
    Elsewhere(arg, "--uninstall", 0);
    Elsewhere(arg, "/clear-user-data", if c == 'c' then 2 else 1);
    Elsewhere(arg, "--clear-user-data", 0);
    Elsewhere(arg, "/elevated-worker", if c == 'e' then 2 else 1);
    Elsewhere(arg, "--elevated-worker", 0);
    Elsewhere(arg, "--initiating-user-context", 0);
  }

  lemma SlashTakesNothing(arg: string, c: char, d: char)
    requires |arg| > 2 && arg[0] == '/'
    requires c == LowerChar(arg[1]) && d == LowerChar(arg[2])
    requires (c, d) !in {('p', 'i'), ('t', 'o'), ('d', '=')}
    ensures TakesNothing(arg)
  {
    hide EqualsIgnoreCase, StartsWithIgnoreCase;
    Elsewhere(arg, "--initiating-user-sid", 0);
    Elsewhere(arg, "--user-profile-root", 0);
    Elsewhere(arg, "--local-app-data-root", 0);
    Elsewhere(arg, "--roaming-app-data-root", 0);
    Elsewhere(arg, "--config-dir", 0);
    Elsewhere(arg, "--temp-root", 0);
    Elsewhere(arg, "--pipe", 0);
    Elsewhere(arg, "--pipe=", 0);
    Elsewhere(arg, "/pipe", if c == 'p' then 2 else 1);
    Elsewhere(arg, "--token", 0);
    Elsewhere(arg, "--token=", 0);
    Elsewhere(arg, "/token", if c == 't' then 2 else 1);
    LongerThan(arg, "/D");
    Elsewhere(arg, "/D=", if c == 'd' then 2 else 1);
  }

  lemma DashNoFlag(arg: string, c: char, d: char)
    requires |arg| > 3 && arg[0] == '-' && arg[1] == '-'
    requires c == LowerChar(arg[2]) && d == LowerChar(arg[3])
    requires (c, d) !in {('s', 'i'), ('u', 'n'), ('c', 'l'), ('e', 'l'), ('i', 'n')}
    ensures IsNoFlag(arg)
  {
    hide EqualsIgnoreCase, StartsWithIgnoreCase;
    Elsewhere(arg, "/S", 0);
    Elsewhere(arg, "/silent", 0);
    Elsewhere(arg, "--silent", if c == 's' then 3 else 2);
    Elsewhere(arg, "/uninstall", 0);
    Elsewhere(arg, "--uninstall", if c == 'u' then 3 else 2);
    Elsewhere(arg, "/clear-user-data", 0);
    Elsewhere(arg, "--clear-user-data", if c == 'c' then 3 else 2);
    Elsewhere(arg, "/elevated-worker", 0);
    Elsewhere(arg, "--elevated-worker", if c == 'e' then 3 else 2);
    Elsewhere(arg, "--initiating-user-context", if c == 'i' then 3 else 2);
  }

  lemma DashTakesNothing(arg: string, c: char, d: char)
    requires |arg| > 3 && arg[0] == '-' && arg[1] == '-'
    requires c == LowerChar(arg[2]) && d == LowerChar(arg[3])
    requires (c, d) !in {('i', 'n'), ('u', 's'), ('l', 'o'), ('r', 'o'), ('c', 'o'), ('t', 'e'), ('p', 'i'), ('t', 'o')}
    ensures TakesNothing(arg)
  {
    hide EqualsIgnoreCase, StartsWithIgnoreCase;
    Elsewhere(arg, "--initiating-user-sid", if c == 'i' then 3 else 2);
    Elsewhere(arg, "--user-profile-root", if c == 'u' then 3 else 2);
    Elsewhere(arg, "--local-app-data-root", if c == 'l' then 3 else 2);
    Elsewhere(arg, "--roaming-app-data-root", if c == 'r' then 3 else 2);
    Elsewhere(arg, "--config-dir", if c == 'c' then 3 else 2);
    Elsewhere(arg, "--temp-root", if c == 't' then 3 else 2);
    Elsewhere(arg, "--pipe", if c == 'p' then 3 else 2);
    Elsewhere(arg, "--pipe=", if c == 'p' then 3 else 2);
    Elsewhere(arg, "/pipe", 0);
    Elsewhere(arg, "--token", if c == 't' then 3 else 2);
    Elsewhere(arg, "--token=", if c == 't' then 3 else 2);
    Elsewhere(arg, "/token", 0);
    Elsewhere(arg, "/D", 0);
    Elsewhere(arg, "/D=", 0);
  }

  lemma TogglePasses(s: Scan, t: Toggle, dashed: bool, word: string, next: Option<string>)
    ensures var arg := ToggleName(t, dashed) + word; arg != "" && ScanArg(s, arg, next) == ScanOtherArg(s, arg)
  {
    hide IsNoFlag, TakesNothing, ScanArg, ScanOtherArg;
    var arg := ToggleName(t, dashed) + word;
    var i := if dashed then 2 else 1;
    var c, d := LowerChar(arg[i]), LowerChar(arg[i + 1]);
    if dashed {
      DashNoFlag(arg, c, d);
      DashTakesNothing(arg, c, d);
    } else {
      SlashNoFlag(arg, c, d);
      SlashTakesNothing(arg, c, d);
    }
    FallsThrough(s, arg, next);
  }

  lemma FlagWord(name: string, word: string)
    requires Truth(word).Some?
    ensures ParseBoolFlag(name + word, name) == Truth(word)
  {
    var arg := name + word;
    assert arg[..|name|] == name && arg[|name|..] == word;
    WordMeans(word);
  }

  lemma WordMeans(word: string)
    requires Truth(word).Some?
    ensures word != "" && (Truth(word).value <==> word == "1" || EqualsIgnoreCase(word, "true") || EqualsIgnoreCase(word, "yes"))
    ensures !Truth(word).value ==> word == "0" || EqualsIgnoreCase(word, "false") || EqualsIgnoreCase(word, "no")
  {
  }

  function PutChoice(o: CliOptions, t: Toggle, b: bool): CliOptions {
    match t
    case DesktopShortcut => o.(desktopShortcut := b)
    case StartMenu => o.(startMenu := b)
    case QuickLaunch => o.(quickLaunch := b)
    case LaunchApp => o.(launchApp := b)
  }

  lemma SlashToggleScan(s: Scan, t: Toggle, word: string)
    requires Truth(word).Some?
    ensures var arg := ToggleName(t, false) + word;
            arg != "" && ScanOtherArg(s, arg) == Flag(s.(opts := PutChoice(s.opts, t, Truth(word).value)))
  {
    hide ParseBoolFlag, Truth;
    var arg := ToggleName(t, false) + word;
    FlagWord(ToggleName(t, false), word);
    Unflagged(arg, "--desktop-shortcut=", 0);
    Unflagged(arg, "--start-menu=", 0);
    Unflagged(arg, "--quick-launch=", 0);
    Unflagged(arg, "--launch=", 0);
    if t != DesktopShortcut { Unflagged(arg, "/desktop-shortcut=", 1); }
    if t != StartMenu { Unflagged(arg, "/start-menu=", 1); }
    if t != QuickLaunch { Unflagged(arg, "/quick-launch=", 1); }
    if t != LaunchApp { Unflagged(arg, "/launch=", 1); }
  }

  lemma DashToggleScan(s: Scan, t: Toggle, word: string)
    requires Truth(word).Some?
    ensures var arg := ToggleName(t, true) + word;
            arg != "" && ScanOtherArg(s, arg) == Flag(s.(opts := PutChoice(s.opts, t, Truth(word).value)))
  {
    hide ParseBoolFlag, Truth;
    var arg := ToggleName(t, true) + word;
    FlagWord(ToggleName(t, true), word);
    Unflagged(arg, "/desktop-shortcut=", 0);
    Unflagged(arg, "/start-menu=", 0);
    Unflagged(arg, "/quick-launch=", 0);
    Unflagged(arg, "/launch=", 0);
    if t != DesktopShortcut { Unflagged(arg, "--desktop-shortcut=", 2); }
    if t != StartMenu { Unflagged(arg, "--start-menu=", 2); }
    if t != QuickLaunch { Unflagged(arg, "--quick-launch=", 2); }
    if t != LaunchApp { Unflagged(arg, "--launch=", 2); }
  }

  lemma ToggleScan(s: Scan, t: Toggle, dashed: bool, word: string, next: Option<string>)
    requires Truth(word).Some?
    ensures ScanArg(s, ToggleName(t, dashed) + word, next) == Flag(s.(opts := PutChoice(s.opts, t, Truth(word).value)))
  {
    hide ScanArg, ScanOtherArg, Truth;
    TogglePasses(s, t, dashed, word, next);
    if dashed {
      DashToggleScan(s, t, word);
    } else {
      SlashToggleScan(s, t, word);
    }
  }

  // text joined to its option

  lemma PipeJoined(s: Scan, v: string, next: Option<string>)
    ensures ScanValueArg(s, "--pipe=" + v, next) == Some(Flag(s.(opts := PutText(s.opts, Pipe, v))))
  {
    hide EqualsIgnoreCase, ToLowerAscii;
    var arg := "--pipe=" + v;
    Elsewhere(arg, "--initiating-user-sid", 2);
    Elsewhere(arg, "--user-profile-root", 2);
    Elsewhere(arg, "--local-app-data-root", 2);
    Elsewhere(arg, "--roaming-app-data-root", 2);
    Elsewhere(arg, "--config-dir", 2);
    Elsewhere(arg, "--temp-root", 2);
    LongerThan(arg, "--pipe");
    Elsewhere(arg, "/pipe", 0);
    assert arg[..7] == "--pipe=" && arg[7..] == v;
  }

  lemma TokenJoined(s: Scan, v: string, next: Option<string>)
    ensures ScanValueArg(s, "--token=" + v, next) == Some(Flag(s.(opts := PutText(s.opts, Token, v))))
  {
    hide EqualsIgnoreCase, ToLowerAscii;
    var arg := "--token=" + v;
    Elsewhere(arg, "--initiating-user-sid", 2);
    Elsewhere(arg, "--user-profile-root", 2);
    Elsewhere(arg, "--local-app-data-root", 2);
    Elsewhere(arg, "--roaming-app-data-root", 2);
    Elsewhere(arg, "--config-dir", 2);
    Elsewhere(arg, "--temp-root", 3);
    Elsewhere(arg, "--pipe", 2);
    Elsewhere(arg, "/pipe", 0);
    Elsewhere(arg, "--pipe=", 2);
    LongerThan(arg, "--token");
    Elsewhere(arg, "/token", 0);
    assert arg[..8] == "--token=" && arg[8..] == v;
  }

  lemma DirJoined(s: Scan, v: string, next: Option<string>)
    ensures ScanValueArg(s, "/D=" + v, next) == Some(Flag(s.(opts := PutText(s.opts, Of(Dir), v))))
  {
    hide EqualsIgnoreCase, ToLowerAscii;
    var arg := "/D=" + v;
    Elsewhere(arg, "--initiating-user-sid", 0);
    Elsewhere(arg, "--user-profile-root", 0);
    Elsewhere(arg, "--local-app-data-root", 0);
    Elsewhere(arg, "--roaming-app-data-root", 0);
    Elsewhere(arg, "--config-dir", 0);
    Elsewhere(arg, "--temp-root", 0);
    Elsewhere(arg, "--pipe", 0);
    Elsewhere(arg, "/pipe", 1);
    Elsewhere(arg, "--pipe=", 0);
    Elsewhere(arg, "--token", 0);
    Elsewhere(arg, "/token", 1);
    Elsewhere(arg, "--token=", 0);
    assert arg[..3] == "/D=" && arg[3..] == v;
  }

  lemma JoinScan(s: Scan, f: Field, v: string, next: Option<string>)
    requires f.Of? ==> f.key == Dir
    ensures ScanArg(s, JoinName(f) + v, next) == Flag(s.(opts := PutText(s.opts, f, v)))
  {
    hide IsNoFlag, ScanValueArg, ScanArg, PutText;
    var arg := JoinName(f) + v;
    match f {
      case Of(_) =>
        SlashNoFlag(arg, 'd', '=');
        DirJoined(s, v, next);
      case Pipe =>
        DashNoFlag(arg, 'p', 'i');
        PipeJoined(s, v, next);
      case Token =>
        DashNoFlag(arg, 't', 'o');
        TokenJoined(s, v, next);
    }
    PastFlags(s, arg, next);
  }

  // ----- a whole command line -----

  function Effect(s: Scan, o: Opt): Scan
    requires Written(o)
  {
    match o
    case On(sw, _) => Flip(s, sw)
    case Choose(t, _, word) => s.(opts := PutChoice(s.opts, t, Truth(word).value))
    case Set(f, _, v) => s.(opts := PutText(s.opts, f, v))
    case Join(f, v) => s.(opts := PutText(s.opts, f, v))
    case Noise(_) => s
  }

  lemma TakeFlag(s: Scan, s': Scan, arg: string, rest: seq<string>)
    requires ScanArg(s, arg, if rest == [] then None else Some(rest[0])) == Flag(s')
    ensures ScanArgs(s, [arg] + rest) == ScanArgs(s', rest)
  {
    hide ScanArg;
    var args := [arg] + rest;
    assert args[1..] == rest;
  }

  lemma TakeValue(s: Scan, s': Scan, arg: string, v: string, rest: seq<string>)
    requires ScanArg(s, arg, Some(v)) == Taken(s', true)
    ensures ScanArgs(s, [arg, v] + rest) == ScanArgs(s', rest)
  {
    hide ScanArg;
    var args := [arg, v] + rest;
    assert args[2..] == rest;
  }

  lemma OneOption(s: Scan, o: Opt, rest: seq<string>)
    requires Written(o)
    ensures ScanArgs(s, Spell(o) + rest) == ScanArgs(Effect(s, o), rest)
  {
    hide ScanArg, ScanArgs, SwitchNames, FieldNames, ToggleName, JoinName, Truth, PutText, PutChoice, Flip, LooksLikeOption;
    var next := if rest == [] then None else Some(rest[0]);
    match o {
      case On(sw, name) => SwitchScan(s, sw, name, next);
      case Choose(t, dashed, word) => ToggleScan(s, t, dashed, word, next);
      case Set(f, name, v) => SetScan(s, f, name, v);
      case Join(f, v) => JoinScan(s, f, v, next);
      case Noise(text) => NoiseScan(s, text, next);
    }
    if o.Set? {
      TakeValue(s, Effect(s, o), o.name, o.value, rest);
    } else {
      TakeFlag(s, Effect(s, o), Spell(o)[0], rest);
    }
  }

  /** The scan after some options. */
  function After(s: Scan, options: seq<Opt>): Scan
    requires AllWritten(options)
  {
    if options == [] then s else Effect(After(s, options[..|options| - 1]), options[|options| - 1])
  }

  lemma {:induction false} ScanOptions(s: Scan, options: seq<Opt>, rest: seq<string>)
    requires AllWritten(options)
    ensures ScanArgs(s, Spelled(options) + rest) == ScanArgs(After(s, options), rest)
    decreases |options|
  {
    hide ScanArgs, Effect, Spell, Written;
    if options == [] {
      assert [] + rest == rest;
    } else {
      var front, o := options[..|options| - 1], options[|options| - 1];
      assert Spelled(options) + rest == Spelled(front) + (Spell(o) + rest);
      ScanOptions(s, front, Spell(o) + rest);
      OneOption(After(s, front), o, rest);
    }
  }

  // the settings one by one

  function TextIn(s: Scan, f: Field): string {
    match f
    case Of(k) => Get(s.opts, k)
    case Pipe => s.opts.elevatedPipe
    case Token => s.opts.elevatedToken
  }

  function ChoiceIn(s: Scan, t: Toggle): bool {
    match t
    case DesktopShortcut => s.opts.desktopShortcut
    case StartMenu => s.opts.startMenu
    case QuickLaunch => s.opts.quickLaunch
    case LaunchApp => s.opts.launchApp
  }

  predicate SwitchIn(s: Scan, sw: Switch) {
    match sw
    case Silently => s.silent
    case Uninstalling => s.uninstall
    case Clearing => s.opts.clearUserData
    case Working => s.elevated
    case WithContext => s.opts.initiatingUserContext
  }

  lemma FlipSeen(s: Scan, sw: Switch, f: Field, t: Toggle, x: Switch)
    ensures TextIn(Flip(s, sw), f) == TextIn(s, f) && ChoiceIn(Flip(s, sw), t) == ChoiceIn(s, t)
    ensures SwitchIn(Flip(s, sw), x) <==> SwitchIn(s, x) || x == sw
  {
    match sw
    case Silently =>
    case Uninstalling =>
    case Clearing =>
    case Working =>
    case WithContext =>
  }

  lemma ChoiceSeen(s: Scan, u: Toggle, b: bool, f: Field, t: Toggle, x: Switch)
    ensures
      var s' := s.(opts := PutChoice(s.opts, u, b));
      && TextIn(s', f) == TextIn(s, f) && ChoiceIn(s', t) == (if t == u then b else ChoiceIn(s, t))
      && (SwitchIn(s', x) <==> SwitchIn(s, x))
  {
    match u
    case DesktopShortcut =>
    case StartMenu =>
    case QuickLaunch =>
    case LaunchApp =>
  }

  lemma PutKeeps(o: CliOptions, k: Key, v: string)
    ensures
      var p := Put(o, k, v);
      && Get(p, k) == v && p.elevatedPipe == o.elevatedPipe && p.elevatedToken == o.elevatedToken
      && p.desktopShortcut == o.desktopShortcut && p.startMenu == o.startMenu && p.quickLaunch == o.quickLaunch
      && p.launchApp == o.launchApp && p.clearUserData == o.clearUserData
      && p.initiatingUserContext == o.initiatingUserContext
  {
    match k
    case Dir =>
    case Sid =>
    case Profile =>
    case Local =>
    case Roaming =>
    case Config =>
    case Temp =>
  }

  lemma KeySeen(s: Scan, k: Key, v: string, f: Field, t: Toggle, x: Switch)
    ensures
      var s' := s.(opts := Put(s.opts, k, v));
      && TextIn(s', f) == (if f == Of(k) then v else TextIn(s, f)) && ChoiceIn(s', t) == ChoiceIn(s, t)
      && (SwitchIn(s', x) <==> SwitchIn(s, x))
  {
    hide Put, Get;
    PutFacts(s.opts, k, v);
    PutKeeps(s.opts, k, v);
  }

  lemma TextSeen(s: Scan, g: Field, v: string, f: Field, t: Toggle, x: Switch)
    ensures
      var s' := s.(opts := PutText(s.opts, g, v));
      && TextIn(s', f) == (if f == g then v else TextIn(s, f)) && ChoiceIn(s', t) == ChoiceIn(s, t)
      && (SwitchIn(s', x) <==> SwitchIn(s, x))
  {
    match g
    case Of(k) =>
      hide Put, Get;
      KeySeen(s, k, v, f, t, x);
    case Pipe =>
    case Token =>
  }

  /** An option changes one setting. */
  lemma EffectSeen(s: Scan, o: Opt, f: Field, t: Toggle, x: Switch)
    requires Written(o)
    ensures TextIn(Effect(s, o), f) == if (o.Set? || o.Join?) && o.field == f then o.value else TextIn(s, f)
    ensures ChoiceIn(Effect(s, o), t) == if o.Choose? && o.toggle == t then Truth(o.word).value else ChoiceIn(s, t)
    ensures SwitchIn(Effect(s, o), x) <==> SwitchIn(s, x) || (o.On? && o.switch == x)
  {
    hide Truth, SwitchNames, FieldNames, LooksLikeOption, Flip, PutChoice, PutText, TextIn, ChoiceIn, SwitchIn;
    match o
    case On(sw, _) => FlipSeen(s, sw, f, t, x);
    case Choose(u, _, word) => ChoiceSeen(s, u, Truth(word).value, f, t, x);
    case Set(g, _, v) => TextSeen(s, g, v, f, t, x);
    case Join(g, v) => TextSeen(s, g, v, f, t, x);
    case Noise(_) =>
  }

  lemma {:induction false} TextSettled(s: Scan, options: seq<Opt>, f: Field)
    requires AllWritten(options)
    ensures TextIn(After(s, options), f) == TextAfter(options, f, TextIn(s, f))
    decreases |options|
  {
    hide Effect, TextIn, Written;
    if options != [] {
      var front, o := options[..|options| - 1], options[|options| - 1];
      TextSettled(s, front, f);
      EffectSeen(After(s, front), o, f, LaunchApp, Silently);
    }
  }

  lemma {:induction false} ChoiceSettled(s: Scan, options: seq<Opt>, t: Toggle)
    requires AllWritten(options)
    ensures ChoiceIn(After(s, options), t) == ChoiceAfter(options, t, ChoiceIn(s, t))
    decreases |options|
  {
    hide Effect, ChoiceIn, Truth, SwitchNames, FieldNames, LooksLikeOption;
    if options != [] {
      var front, o := options[..|options| - 1], options[|options| - 1];
      ChoiceSettled(s, front, t);
      EffectSeen(After(s, front), o, Pipe, t, Silently);
    }
  }

  lemma {:induction false} SwitchSettled(s: Scan, options: seq<Opt>, sw: Switch)
    requires AllWritten(options)
    ensures SwitchIn(After(s, options), sw) <==> SwitchIn(s, sw) || Given(options, sw)
    decreases |options|
  {
    hide Effect, SwitchIn, Written;
    if options != [] {
      var front, o := options[..|options| - 1], options[|options| - 1];
      SwitchSettled(s, front, sw);
      EffectSeen(After(s, front), o, Pipe, LaunchApp, sw);
      GivenSnoc(front, o, sw);
      assert front + [o] == options;
    }
  }

  lemma GivenSnoc(options: seq<Opt>, o: Opt, sw: Switch)
    ensures Given(options + [o], sw) <==> Given(options, sw) || (o.On? && o.switch == sw)
  {
    var all := options + [o];
    if Given(options, sw) {
      var i :| 0 <= i < |options| && options[i].On? && options[i].switch == sw;
      assert all[i].On? && all[i].switch == sw;
    }
    if o.On? && o.switch == sw {
      assert all[|options|].On? && all[|options|].switch == sw;
    }
  }

  /** The scan of a whole command line, seen setting by setting. */
  lemma LineScanned(exe: string, options: seq<Opt>)
    requires AllWritten(options)
    ensures
      var argv := [exe] + Spelled(options);
      ScanArgs(StartScan(argv), argv[1..]) == Some(After(StartScan(argv), options))
  {
    hide ScanArgs, Spelled, IsUninstallExecutableName, AllWritten, After;
    var argv := [exe] + Spelled(options);
    assert argv[1..] == Spelled(options) == Spelled(options) + [];
    ScanOptions(StartScan(argv), options, []);
    ScanEnds(After(StartScan(argv), options));
  }

  lemma ScanEnds(s: Scan)
    ensures ScanArgs(s, []) == Some(s)
  {
  }

  /** The worker needs both halves of its channel, and the line is accepted exactly if it has them or is no
      worker's. The role follows from the switches and the executable's name. */
  lemma RoleOfLine(exe: string, options: seq<Opt>, defaultDir: string)
    requires AllWritten(options)
    ensures
      var r := ParseArgv([exe] + Spelled(options), defaultDir);
      var removing := Given(options, Uninstalling) || IsUninstallExecutableName(exe);
      && (r.None? <==>
            Given(options, Working) && (TextAfter(options, Pipe, "") == "" || TextAfter(options, Token, "") == ""))
      && (r.Some? ==>
            && (r.value.role == ElevatedWorker <==> Given(options, Working))
            && (!Given(options, Working) ==>
                  && (r.value.role in {UninstallGui, UninstallSilent} <==> removing)
                  && (r.value.role in {InstallSilent, UninstallSilent} <==> Given(options, Silently))))
  {
    hide ScanArgs, Spelled, TextAfter, Given, IsUninstallExecutableName, AllWritten, After;
    var argv := [exe] + Spelled(options);
    var start := StartScan(argv);
    LineScanned(exe, options);
    SwitchSettled(start, options, Working);
    SwitchSettled(start, options, Uninstalling);
    SwitchSettled(start, options, Silently);
    TextSettled(start, options, Pipe);
    TextSettled(start, options, Token);
  }

  /** An install with no directory takes the default one. Otherwise every text is what its last option
      says, and empty if it has none. */
  lemma TextsOfLine(exe: string, options: seq<Opt>, defaultDir: string, f: Field)
    requires AllWritten(options)
    requires ParseArgv([exe] + Spelled(options), defaultDir).Some?
    ensures
      var o := ParseArgv([exe] + Spelled(options), defaultDir).value;
      var text := TextAfter(options, f, "");
      match f
      case Of(k) =>
        Get(o, k) == if k == Dir && text == "" && o.role in {InstallGui, InstallSilent} then defaultDir else text
      case Pipe => o.elevatedPipe == text
      case Token => o.elevatedToken == text
  {
    hide ScanArgs, Spelled, TextAfter, IsUninstallExecutableName, AllWritten, After;
    LineScanned(exe, options);
    TextSettled(StartScan([exe] + Spelled(options)), options, f);
  }

  /** Every yes-or-no setting is what its last option says, or its default; the two plain switches are on
      exactly if they were given. */
  lemma ChoicesOfLine(exe: string, options: seq<Opt>, defaultDir: string)
    requires AllWritten(options)
    requires ParseArgv([exe] + Spelled(options), defaultDir).Some?
    ensures
      var o := ParseArgv([exe] + Spelled(options), defaultDir).value;
      && o.desktopShortcut == ChoiceAfter(options, DesktopShortcut, true)
      && o.startMenu == ChoiceAfter(options, StartMenu, true)
      && o.quickLaunch == ChoiceAfter(options, QuickLaunch, false)
      && o.launchApp == ChoiceAfter(options, LaunchApp, true)
      && o.clearUserData == Given(options, Clearing)
      && o.initiatingUserContext == Given(options, WithContext)
  {
    hide ScanArgs, Spelled, ChoiceAfter, Given, IsUninstallExecutableName, AllWritten, After, Conclude;
    var start := StartScan([exe] + Spelled(options));
    LineScanned(exe, options);
    Concluded(After(start, options), defaultDir);
    ChoiceSettled(start, options, DesktopShortcut);
    ChoiceSettled(start, options, StartMenu);
    ChoiceSettled(start, options, QuickLaunch);
    ChoiceSettled(start, options, LaunchApp);
    SwitchSettled(start, options, Clearing);
    SwitchSettled(start, options, WithContext);
  }

  lemma Concluded(s: Scan, defaultDir: string)
    requires Conclude(s, defaultDir).Some?
    ensures
      var o := Conclude(s, defaultDir).value;
      && o.desktopShortcut == s.opts.desktopShortcut && o.startMenu == s.opts.startMenu
      && o.quickLaunch == s.opts.quickLaunch && o.launchApp == s.opts.launchApp
      && o.clearUserData == s.opts.clearUserData && o.initiatingUserContext == s.opts.initiatingUserContext
  {
    if s.elevated {
    } else if s.uninstall {
    } else {
    }
  }

  // ----- command lines that are refused -----

  /** The argument is written like an option of the program, in any case. */
  ghost predicate Known(arg: string) {
    || (exists o :: Written(o) && !o.Join? && !o.Noise? && SameLetters(arg, Spell(o)[0]))
    || (exists name | name in ["--pipe=", "--token=", "/D="] :: |name| <= |arg| && SameLetters(arg[..|name|], name))
  }

  lemma MatchedLetters(a: string, b: string)
    requires EqualsIgnoreCase(a, b)
    ensures SameLetters(a, b)
  {
    assert |a| == |ToLowerAscii(a)| == |b|;
    forall i | 0 <= i < |a|
      ensures LowerChar(a[i]) == LowerChar(b[i])
    {
      assert ToLowerAscii(a)[i] == LowerChar(a[i]) && ToLowerAscii(b)[i] == LowerChar(b[i]);
    }
  }

  lemma WrittenIsKnown(arg: string, o: Opt)
    requires Written(o) && !o.Join? && !o.Noise? && SameLetters(arg, Spell(o)[0])
    ensures Known(arg)
  {
  }

  lemma UnknownSwitch(arg: string, sw: Switch, name: string)
    requires !Known(arg) && name in SwitchNames(sw)
    ensures !EqualsIgnoreCase(arg, name)
  {
    hide Known, SameLetters, EqualsIgnoreCase, SwitchNames;
    if EqualsIgnoreCase(arg, name) {
      MatchedLetters(arg, name);
      WrittenIsKnown(arg, On(sw, name));
    }
  }

  lemma UnknownField(arg: string, f: Field, name: string)
    requires !Known(arg) && name in FieldNames(f)
    ensures !EqualsIgnoreCase(arg, name)
  {
    hide Known, SameLetters, EqualsIgnoreCase, FieldNames;
    if EqualsIgnoreCase(arg, name) {
      MatchedLetters(arg, name);
      WrittenIsKnown(arg, Set(f, name, ""));
    }
  }

  lemma UnknownJoined(arg: string, name: string)
    requires !Known(arg) && name in ["--pipe=", "--token=", "/D="]
    ensures !StartsWithIgnoreCase(arg, name)
  {
    if StartsWithIgnoreCase(arg, name) {
      MatchedLetters(arg[..|name|], name);
    }
  }

  lemma UnknownToggle(arg: string, t: Toggle, dashed: bool)
    requires !Known(arg)
    ensures ParseBoolFlag(arg, ToggleName(t, dashed)) == None
  {
    hide Known, SameLetters, ToggleName, ToLowerAscii, Truth;
    var name := ToggleName(t, dashed);
    if ParseBoolFlag(arg, name) != None {
      var word := MatchedWord(arg[|name|..]);
      JoinLetters(arg, name, word);
      WrittenIsKnown(arg, Choose(t, dashed, word));
    }
  }

  lemma MatchedWord(v: string) returns (word: string)
    requires
      || v == "1" || EqualsIgnoreCase(v, "true") || EqualsIgnoreCase(v, "yes")
      || v == "0" || EqualsIgnoreCase(v, "false") || EqualsIgnoreCase(v, "no")
    ensures Truth(word).Some? && EqualsIgnoreCase(v, word)
  {
    word :=
      if v == "1" || v == "0" then v
      else if EqualsIgnoreCase(v, "true") then "true"
      else if EqualsIgnoreCase(v, "yes") then "yes"
      else if EqualsIgnoreCase(v, "false") then "false"
      else "no";
  }

  lemma JoinLetters(arg: string, name: string, word: string)
    requires |name| <= |arg| && ToLowerAscii(arg[..|name|]) == ToLowerAscii(name)
    requires EqualsIgnoreCase(arg[|name|..], word)
    ensures SameLetters(arg, name + word)
  {
    hide ToLowerAscii;
    MatchedLetters(arg[..|name|], name);
    MatchedLetters(arg[|name|..], word);
  }

  lemma UnknownIsNoFlag(arg: string)
    requires !Known(arg) && arg != ""
    ensures IsNoFlag(arg)
  {
    hide EqualsIgnoreCase, Known;
    UnknownSwitch(arg, Silently, "/S");
    UnknownSwitch(arg, Silently, "/silent");
    UnknownSwitch(arg, Silently, "--silent");
    UnknownSwitch(arg, Uninstalling, "/uninstall");
    UnknownSwitch(arg, Uninstalling, "--uninstall");
    UnknownSwitch(arg, Clearing, "/clear-user-data");
    UnknownSwitch(arg, Clearing, "--clear-user-data");
    UnknownSwitch(arg, Working, "/elevated-worker");
    UnknownSwitch(arg, Working, "--elevated-worker");
    UnknownSwitch(arg, WithContext, "--initiating-user-context");
  }

  lemma UnknownTakesNothing(arg: string)
    requires !Known(arg)
    ensures TakesNothing(arg)
  {
    hide EqualsIgnoreCase, StartsWithIgnoreCase, Known;
    UnknownField(arg, Of(Dir), "/D");
    UnknownField(arg, Of(Sid), "--initiating-user-sid");
    UnknownField(arg, Of(Profile), "--user-profile-root");
    UnknownField(arg, Of(Local), "--local-app-data-root");
    UnknownField(arg, Of(Roaming), "--roaming-app-data-root");
    UnknownField(arg, Of(Config), "--config-dir");
    UnknownField(arg, Of(Temp), "--temp-root");
    UnknownField(arg, Pipe, "--pipe");
    UnknownField(arg, Pipe, "/pipe");
    UnknownField(arg, Token, "--token");
    UnknownField(arg, Token, "/token");
    UnknownJoined(arg, "--pipe=");
    UnknownJoined(arg, "--token=");
    UnknownJoined(arg, "/D=");
  }

  lemma UnknownIsRefused(s: Scan, arg: string, next: Option<string>)
    requires LooksLikeOption(arg) && !Known(arg)
    ensures ScanArg(s, arg, next).Refused?
  {
    hide ParseBoolFlag, Known, IsNoFlag, TakesNothing, ScanArg;
    UnknownIsNoFlag(arg);
    UnknownTakesNothing(arg);
    FallsThrough(s, arg, next);
    UnknownToggle(arg, DesktopShortcut, false);
    UnknownToggle(arg, DesktopShortcut, true);
    UnknownToggle(arg, StartMenu, false);
    UnknownToggle(arg, StartMenu, true);
    UnknownToggle(arg, QuickLaunch, false);
    UnknownToggle(arg, QuickLaunch, true);
    UnknownToggle(arg, LaunchApp, false);
    UnknownToggle(arg, LaunchApp, true);
  }

  /** A slash or a dash in front of anything else refuses the whole line, whatever stands around it. */
  lemma UnknownRefused(exe: string, options: seq<Opt>, arg: string, rest: seq<string>, defaultDir: string)
    requires AllWritten(options) && LooksLikeOption(arg) && !Known(arg)
    ensures ParseArgv([exe] + (Spelled(options) + ([arg] + rest)), defaultDir) == None
  {
    hide ScanArg, Spelled, Known, After, LooksLikeOption, AllWritten;
    var argv := [exe] + (Spelled(options) + ([arg] + rest));
    assert argv[1..] == Spelled(options) + ([arg] + rest);
    ScanOptions(StartScan(argv), options, [arg] + rest);
    var s := After(StartScan(argv), options);
    UnknownIsRefused(s, arg, if rest == [] then None else Some(rest[0]));
    RefusedFirst(s, arg, rest);
  }

  lemma RefusedFirst(s: Scan, arg: string, rest: seq<string>)
    requires ScanArg(s, arg, if rest == [] then None else Some(rest[0])).Refused?
    ensures ScanArgs(s, [arg] + rest) == None
  {
    hide ScanArg;
    var args := [arg] + rest;
    assert args[1..] == rest;
  }

  lemma NeedsValue(s: Scan, arg: string, v: string)
    requires ScanArg(s, arg, Some(v)).Taken? && ScanArg(s, arg, Some(v)).tookValue
    ensures ScanArg(s, arg, None).Refused?
  {
    hide EqualsIgnoreCase, StartsWithIgnoreCase, ParseBoolFlag;
  }

  /** An option that lacks its value refuses the line. */
  lemma MissingValueRefused(exe: string, options: seq<Opt>, f: Field, name: string, defaultDir: string)
    requires AllWritten(options) && name in FieldNames(f)
    ensures ParseArgv([exe] + (Spelled(options) + [name]), defaultDir) == None
  {
    hide ScanArg, Spelled, After, AllWritten, FieldNames, PutText;
    var argv := [exe] + (Spelled(options) + [name]);
    assert argv[1..] == Spelled(options) + [name] && [name] + [] == [name];
    ScanOptions(StartScan(argv), options, [name]);
    var s := After(StartScan(argv), options);
    SetScan(s, f, name, "");
    NeedsValue(s, name, "");
    RefusedFirst(s, name, []);
  }

  // ----- the executable's name -----

  /** The name of a file is what stands behind the last separator. */
  lemma {:induction false} NameBehindSeparator(dir: string, name: string)
    requires dir == "" || dir[|dir| - 1] in {'\\', '/'}
    requires '\\' !in name && '/' !in name
    ensures FileNameOf(dir + name) == name
    decreases |name|
  {
    if name == "" {
      assert dir + name == dir;
    } else {
      var front, path := name[..|name| - 1], dir + name;
      assert path[..|path| - 1] == dir + front;
      assert path[|path| - 1] == name[|name| - 1] && name[|name| - 1] in name;
      NameBehindSeparator(dir, front);
    }
  }

  /** A copy of the setup program uninstalls by itself exactly when it is called Uninstall.exe, in any case
      and in any directory. */
  lemma UninstallByName(dir: string, name: string)
    requires dir == "" || dir[|dir| - 1] in {'\\', '/'}
    requires '\\' !in name && '/' !in name
    ensures IsUninstallExecutableName(dir + name) <==> SameLetters(name, "Uninstall.exe")
  {
    hide EqualsIgnoreCase, SameLetters, FileNameOf;
    NameBehindSeparator(dir, name);
    if SameLetters(name, "Uninstall.exe") {
      SameLettersMatch(name, "Uninstall.exe");
    }
    if EqualsIgnoreCase(name, "Uninstall.exe") {
      MatchedLetters(name, "Uninstall.exe");
    }
  }
}
