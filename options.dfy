/** The command-line scan at the start of `ls_test_main`: arguments after
    the program name are read left to right; `--failfast` sets the flag,
    `--help` ends the program with status 0, and anything else ends it with
    status 1. */
module Options {

  /** What one argument is to the scan. */
  datatype ArgKind = FailfastFlag | HelpFlag | Unknown

  function Classify(arg: string): (k: ArgKind)
    ensures k == FailfastFlag <==> arg == "--failfast"
    ensures k == HelpFlag <==> arg == "--help"
  {
    if arg == "--failfast" then FailfastFlag
    else if arg == "--help" then HelpFlag
    else Unknown
  }

  /** The result of the scan: go on and run the tests, or exit at once. */
  datatype ScanResult = Proceed(failfast: bool) | Exit(status: int)

  /** The scan of `args` (the arguments after the program name), with the
      flag value set by the arguments already read. */
  function Scan(args: seq<string>, failfast: bool): (r: ScanResult)
    ensures r.Exit? ==> r.status == 0 || r.status == 1
    ensures r.Proceed? ==> (r.failfast <==> failfast || args != [])
  {
    if args == [] then Proceed(failfast)
    else
      match Classify(args[0])
      case FailfastFlag => Scan(args[1..], true)
      case HelpFlag => Exit(0)
      case Unknown => Exit(1)
  }

  /** `argv` without the program name `argv[0]` (none when argc is 0). */
  function ProgramArgs(argv: seq<string>): seq<string>
  {
    if argv == [] then [] else argv[1..]
  }

  /** `--help` decides the scan when every argument before it is `--failfast`:
      status 0, even when `--failfast` came first. */
  lemma {:induction false} HelpExits(args: seq<string>, k: nat, failfast: bool)
    requires k < |args| && args[k] == "--help"
    requires forall j :: 0 <= j < k ==> args[j] == "--failfast"
    ensures Scan(args, failfast) == Exit(0)
  {
    if k > 0 {
      HelpExits(args[1..], k - 1, true);
    }
  }

  /** Any other argument decides the scan in the same position: status 1. */
  lemma {:induction false} UnknownExits(args: seq<string>, k: nat, failfast: bool)
    requires k < |args| && args[k] != "--help" && args[k] != "--failfast"
    requires forall j :: 0 <= j < k ==> args[j] == "--failfast"
    ensures Scan(args, failfast) == Exit(1)
  {
    if k > 0 {
      UnknownExits(args[1..], k - 1, true);
    }
  }

  /** When the scan goes on to run the tests, every argument was `--failfast`,
      and the flag is set exactly when there was at least one of them. */
  lemma {:induction false} ProceedOnlyOnFailfast(args: seq<string>, failfast: bool)
    ensures Scan(args, failfast).Proceed? <==> forall j :: 0 <= j < |args| ==> args[j] == "--failfast"
    ensures Scan(args, failfast).Proceed? ==> Scan(args, failfast).failfast == (failfast || args != [])
  {
    if args != [] {
      ProceedOnlyOnFailfast(args[1..], true);
      if args[0] == "--failfast" {
        assert forall j :: 1 <= j < |args| ==> args[j] == args[1..][j - 1];
      }
    }
  }

  /** The first deciding argument wins, whatever follows it. */
  lemma ArgumentOrderExamples()
    ensures Scan(["--bogus", "--help"], false) == Exit(1)
    ensures Scan(["--help", "--bogus"], false) == Exit(0)
    ensures Scan(["--failfast", "--help"], false) == Exit(0)
    ensures Scan(["--failfast"], false) == Proceed(true)
    ensures Scan([], false) == Proceed(false)
  {
  }

  /** The first loop of `ls_test_main`, from `argv[1]` to the end. */
  method ParseOptions(argv: seq<string>) returns (r: ScanResult)
    ensures r == Scan(ProgramArgs(argv), false)
  {
    ghost var args := ProgramArgs(argv);
    var failfast := false;
    var i := 1;
    while i < |argv|
      invariant 1 <= i <= |args| + 1
      invariant Scan(args, false) == Scan(args[i - 1..], failfast)
    {
      assert argv[i] == args[i - 1];
      if argv[i] == "--failfast" {
        failfast := true;
      } else if argv[i] == "--help" {
        return Exit(0);
      } else {
        return Exit(1);
      }
      assert args[i - 1..][1..] == args[i..];
      i := i + 1;
    }
    return Proceed(failfast);
  }
}
