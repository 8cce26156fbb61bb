/** `parseArgs`: one pass over the whole command line, program name
    included. "-h" stops with status 1; "-v" turns on verbose logging;
    "-r" and "-n" take the next argument as the resource directory or the
    application name, failing with status 1 when there is none. A value
    is not skipped after it is consumed, so it is examined as a flag too.
    Printing the usage text is not modelled. */
module App {

  /** The engine fields parseArgs assigns. */
  datatype Settings = Settings(verbose: bool, resourceDir: string, appName: string)

  /** The status and settings with which the scan of args[i..] returns,
      starting from s. */
  function Scan(args: seq<string>, i: nat, s: Settings): (int, Settings)
    requires i <= |args|
    decreases |args| - i
  {
    if i == |args| then (0, s)
    else if args[i] == "-h" then (1, s)
    else if args[i] == "-v" then Scan(args, i + 1, s.(verbose := true))
    else if args[i] == "-r" then
      if i + 1 >= |args| then (1, s) else Scan(args, i + 1, s.(resourceDir := args[i + 1]))
    else if args[i] == "-n" then
      if i + 1 >= |args| then (1, s) else Scan(args, i + 1, s.(appName := args[i + 1]))
    else Scan(args, i + 1, s)
  }

  /** A flag that wants a value but is the last argument. */
  predicate DanglingFlag(args: seq<string>)
  {
    |args| > 0 && (args[|args| - 1] == "-r" || args[|args| - 1] == "-n")
  }

  /** The scan succeeds exactly when no "-h" occurs from i on and the
      command line does not end in "-r" or "-n". */
  lemma {:induction false} ScanStatus(args: seq<string>, i: nat, s: Settings)
    requires i < |args| || (i == |args| && !DanglingFlag(args))
    ensures Scan(args, i, s).0 == 0 || Scan(args, i, s).0 == 1
    ensures Scan(args, i, s).0 == 0 <==> "-h" !in args[i..] && !DanglingFlag(args)
    decreases |args| - i
  {
    if i == |args| {
      assert args[i..] == [];
    } else {
      assert args[i..] == [args[i]] + args[i + 1..];
      if args[i] == "-h" {
      } else if (args[i] == "-r" || args[i] == "-n") && i + 1 >= |args| {
      } else {
        var s' := if args[i] == "-v" then s.(verbose := true)
          else if args[i] == "-r" then s.(resourceDir := args[i + 1])
          else if args[i] == "-n" then s.(appName := args[i + 1])
          else s;
        assert Scan(args, i, s) == Scan(args, i + 1, s');
        ScanStatus(args, i + 1, s');
      }
    }
  }

  /** Whether flag occurs at some index k in [i, |args| - 1), that is,
      with a value after it. */
  predicate HasValued(args: seq<string>, flag: string, i: nat)
  {
    exists k :: i <= k < |args| - 1 && args[k] == flag
  }

  /** k is the last such index. */
  predicate LastValued(args: seq<string>, flag: string, i: nat, k: nat)
  {
    i <= k < |args| - 1 && args[k] == flag && forall j :: k < j < |args| - 1 ==> args[j] != flag
  }

  /** On success, the last "-r" and the last "-n" win, an absent flag
      leaves its field alone, and verbose is set iff it was or "-v"
      occurs. */
  lemma {:induction false} ScanSettings(args: seq<string>, i: nat, s: Settings, kr: nat, kn: nat)
    requires i <= |args|
    requires Scan(args, i, s).0 == 0
    ensures Scan(args, i, s).1.verbose == (s.verbose || "-v" in args[i..])
    ensures !HasValued(args, "-r", i) ==> Scan(args, i, s).1.resourceDir == s.resourceDir
    ensures LastValued(args, "-r", i, kr) ==> Scan(args, i, s).1.resourceDir == args[kr + 1]
    ensures !HasValued(args, "-n", i) ==> Scan(args, i, s).1.appName == s.appName
    ensures LastValued(args, "-n", i, kn) ==> Scan(args, i, s).1.appName == args[kn + 1]
    decreases |args| - i
  {
    if i == |args| {
      assert args[i..] == [];
    } else {
      assert args[i..] == [args[i]] + args[i + 1..];
      var s' := if args[i] == "-v" then s.(verbose := true)
        else if args[i] == "-r" then s.(resourceDir := args[i + 1])
        else if args[i] == "-n" then s.(appName := args[i + 1])
        else s;
      assert Scan(args, i, s) == Scan(args, i + 1, s');
      ScanSettings(args, i + 1, s', kr, kn);
      if args[i] == "-r" && !HasValued(args, "-r", i + 1) {
        assert LastValued(args, "-r", i, kr) ==> kr == i;
      }
      if args[i] == "-n" && !HasValued(args, "-n", i + 1) {
        assert LastValued(args, "-n", i, kn) ==> kn == i;
      }
      if LastValued(args, "-r", i, kr) && kr > i {
        assert LastValued(args, "-r", i + 1, kr);
      }
      if LastValued(args, "-n", i, kn) && kn > i {
        assert LastValued(args, "-n", i + 1, kn);
      }
      if HasValued(args, "-r", i + 1) {
        var k :| i + 1 <= k < |args| - 1 && args[k] == "-r";
        assert HasValued(args, "-r", i);
      }
      if HasValued(args, "-n", i + 1) {
        var k :| i + 1 <= k < |args| - 1 && args[k] == "-n";
        assert HasValued(args, "-n", i);
      }
    }
  }

  /** The fields of EngineApp that parseArgs writes. */
  class EngineApp {
    var verbose: bool
    var resourceDir: string
    var appName: string

    function Current(): Settings
      reads this
    {
      Settings(verbose, resourceDir, appName)
    }

    constructor (resourceDir: string, appName: string)
      ensures Current() == Settings(false, resourceDir, appName)
    {
      verbose := false;
      this.resourceDir := resourceDir;
      this.appName := appName;
    }
  }

  /** parseArgs(engine, argc, argv): the loop, with its early returns. */
  method ParseArgs(engine: EngineApp, args: seq<string>) returns (status: int)
    modifies engine
    ensures (status, engine.Current()) == Scan(args, 0, old(engine.Current()))
  {
    var i := 0;
    while i < |args|
      invariant i <= |args|
      invariant Scan(args, 0, old(engine.Current())) == Scan(args, i, engine.Current())
    {
      if args[i] == "-h" {
        return 1;
      }
      if args[i] == "-v" {
        engine.verbose := true;
      }
      if args[i] == "-r" {
        if i + 1 >= |args| {
          return 1;
        }
        engine.resourceDir := args[i + 1];
      }
      if args[i] == "-n" {
        if i + 1 >= |args| {
          return 1;
        }
        engine.appName := args[i + 1];
      }
      i := i + 1;
    }
    return 0;
  }
}
