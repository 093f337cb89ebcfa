/**
 * The packaged entry point: whether a command line starts the GUI or the
 * command-line interface.
 */
module MainEntry {
  import opened Text

  /** `argv[i]` survives the filter: it is not `-m` and does not follow one. */
  predicate Kept(argv: seq<string>, i: int)
    requires 0 <= i < |argv|
  {
    argv[i] != "-m" && !(i > 0 && argv[i - 1] == "-m")
  }

  /** The arguments from position `i` on that survive the filter, in order. */
  function KeptFrom(argv: seq<string>, i: nat): (r: seq<string>)
    requires i <= |argv|
    decreases |argv| - i
    ensures |r| <= |argv| - i
    ensures forall x :: x in r ==> x != "-m"
    ensures forall x :: x in r ==> x in argv[i..]
  {
    if i == |argv| then []
    else
      var rest := KeptFrom(argv, i + 1);
      assert forall x :: x in argv[i + 1..] ==> x in argv[i..];
      (if Kept(argv, i) then [argv[i]] else []) + rest
  }

  /** `argv` without `-m` and the module name after it. */
  function Arguments(argv: seq<string>): seq<string>
  {
    KeptFrom(argv, 0)
  }

  /** With no `-m` from position `i - 1` on, nothing from `i` on is filtered out. */
  lemma {:induction false} KeptAll(argv: seq<string>, i: nat)
    requires i <= |argv|
    requires forall j :: i <= j < |argv| ==> argv[j] != "-m"
    requires i > 0 ==> argv[i - 1] != "-m"
    decreases |argv| - i
    ensures KeptFrom(argv, i) == argv[i..]
  {
    if i < |argv| {
      KeptAll(argv, i + 1);
      assert argv[i..] == [argv[i]] + argv[i + 1..];
    }
  }

  /** A command line without `-m` is left as it is. */
  lemma NoModuleFlag(argv: seq<string>)
    requires "-m" !in argv
    ensures Arguments(argv) == argv
  {
    KeptAll(argv, 0);
  }

  /** The flags that always mean the command-line interface. */
  predicate CliFlag(arg: string)
  {
    arg == "-h" || arg == "--help" || arg == "--version" || arg == "--debug"
  }

  /**
   * `is_gui_mode`: the GUI when only the script name is left, the command
   * line when a help, version or debug flag is given anywhere or the first
   * argument is not a flag, the GUI otherwise.
   */
  function IsGuiMode(argv: seq<string>): (gui: bool)
  {
    var args := Arguments(argv);
    if |args| == 1 then true
    else if exists k :: 1 <= k < |args| && CliFlag(args[k]) then false
    else if |args| > 1 && !StartsWith(args[1], "-") then false
    else true
  }

  /** The script alone starts the GUI. */
  lemma ScriptAloneIsGui(script: string)
    requires script != "-m"
    ensures IsGuiMode([script])
  {
    NoModuleFlag([script]);
  }

  /** A help, version or debug flag anywhere after the script means the command line. */
  lemma CliFlagMeansCli(argv: seq<string>, k: int)
    requires "-m" !in argv
    requires 1 <= k < |argv| && CliFlag(argv[k])
    ensures !IsGuiMode(argv)
  {
    NoModuleFlag(argv);
  }

  /** A first argument that is not a flag means the command line. */
  lemma PositionalMeansCli(argv: seq<string>)
    requires "-m" !in argv
    requires |argv| > 1 && !StartsWith(argv[1], "-")
    ensures !IsGuiMode(argv)
  {
    NoModuleFlag(argv);
  }

  /** Only flags, none of them a help, version or debug flag, start the GUI. */
  lemma OtherFlagsAreGui(argv: seq<string>)
    requires "-m" !in argv
    requires |argv| > 1 && StartsWith(argv[1], "-")
    requires forall k :: 1 <= k < |argv| ==> !CliFlag(argv[k])
    ensures IsGuiMode(argv)
  {
    NoModuleFlag(argv);
  }

  /** Run as `script -m name rest`, the decision is the one for `script rest`. */
  lemma ModuleInvocation(script: string, moduleName: string, rest: seq<string>)
    requires script != "-m" && moduleName != "-m" && "-m" !in rest
    ensures Arguments([script, "-m", moduleName] + rest) == [script] + rest
    ensures IsGuiMode([script, "-m", moduleName] + rest) == IsGuiMode([script] + rest)
  {
    var argv := [script, "-m", moduleName] + rest;
    assert forall j :: 3 <= j < |argv| ==> argv[j] == rest[j - 3];
    KeptAll(argv, 3);
    assert argv[3..] == rest;
    assert !Kept(argv, 1) && !Kept(argv, 2) && Kept(argv, 0);
    assert KeptFrom(argv, 2) == rest;
    assert KeptFrom(argv, 1) == rest;
    NoModuleFlag([script] + rest);
  }

  /** What starts: the GUI, or the command line (also when the GUI is not installed). */
  datatype Launch = StartGui | StartCli

  /** `main`: the GUI in GUI mode when it can be imported, the command line otherwise. */
  function Launcher(argv: seq<string>, guiInstalled: bool): Launch
  {
    if IsGuiMode(argv) && guiInstalled then StartGui else StartCli
  }

  /**
   * The script alone opens the GUI exactly when it is installed, and falls
   * back to the command line otherwise; a help, version or debug flag always
   * starts the command line.
   */
  lemma LaunchOfScript(script: string, guiInstalled: bool, argv: seq<string>, k: int)
    requires script != "-m"
    requires "-m" !in argv && 1 <= k < |argv| && CliFlag(argv[k])
    ensures Launcher([script], guiInstalled) == if guiInstalled then StartGui else StartCli
    ensures Launcher(argv, guiInstalled) == StartCli
  {
    ScriptAloneIsGui(script);
    CliFlagMeansCli(argv, k);
  }
}
