/** The `open-next` command line: the arguments after the script name are
    read into a flag map, and the command either prints the usage and exits
    with status 1 or starts a build. */
module Cli {
  import opened Common

  /** What the value of the flag at `i` is: the next argument when there is
      one, it is non-empty and it does not start with `-`. */
  function ValueAfter(args: seq<string>, i: nat): (v: Option<string>)
    requires i < |args|
    ensures v.Some? <==> i + 1 < |args| && args[i + 1] != "" && !StartsWith(args[i + 1], "-")
    ensures v.Some? ==> v.value == args[i + 1]
  {
    if i + 1 < |args| && args[i + 1] != "" && !StartsWith(args[i + 1], "-") then Some(args[i + 1]) else None
  }

  /** The flag map after the `reduce` has visited the first `n` arguments. */
  function Parsed(args: seq<string>, n: nat): map<string, Option<string>>
    requires n <= |args|
  {
    if n == 0 then map[]
    else
      var acc := Parsed(args, n - 1);
      if StartsWith(args[n - 1], "--") then acc[args[n - 1] := ValueAfter(args, n - 1)] else acc
  }

  /** Only arguments starting with `--` become keys, and each of them does. */
  lemma {:induction false} ParsedKeys(args: seq<string>, n: nat, k: string)
    requires n <= |args|
    ensures k in Parsed(args, n) <==> StartsWith(k, "--") && exists i :: 0 <= i < n && args[i] == k
  {
    if n > 0 {
      ParsedKeys(args, n - 1, k);
      if k in Parsed(args, n - 1) {
        var i :| 0 <= i < n - 1 && args[i] == k;
        assert 0 <= i < n && args[i] == k;
      }
    }
  }

  /** A repeated flag keeps the value read at its last occurrence. */
  lemma {:induction false} ParsedLastWins(args: seq<string>, n: nat, i: nat)
    requires i < n <= |args| && StartsWith(args[i], "--")
    requires forall j :: i < j < n ==> args[j] != args[i]
    ensures args[i] in Parsed(args, n) && Parsed(args, n)[args[i]] == ValueAfter(args, i)
  {
    if n - 1 != i {
      ParsedLastWins(args, n - 1, i);
    }
  }

  /** `parseArgs`, over `process.argv.slice(2)`. */
  method ParseArgs(args: seq<string>) returns (acc: map<string, Option<string>>)
    ensures acc == Parsed(args, |args|)
  {
    acc := map[];
    var ind := 0;
    while ind < |args|
      invariant 0 <= ind <= |args|
      invariant acc == Parsed(args, ind)
    {
      var key := args[ind];
      if StartsWith(key, "--") {
        if ind + 1 < |args| && args[ind + 1] != "" && StartsWith(args[ind + 1], "-") {
          acc := acc[key := None];
        } else if ind + 1 < |args| && args[ind + 1] != "" {
          acc := acc[key := Some(args[ind + 1])];
        } else {
          acc := acc[key := None];
        }
      }
      ind := ind + 1;
    }
  }

  /** What the command does: print the usage and exit with `exitCode`, or
      build. */
  datatype Outcome =
    | Help(exitCode: int)
    | Build(openNextConfigPath: Option<string>, skipBuild: bool, standaloneMode: bool)

  /** A flag's value; an absent flag reads as `undefined`. */
  function Flag(flags: map<string, Option<string>>, key: string): Option<string> {
    if key in flags then flags[key] else None
  }

  /** The command run on `argv`, which holds the runtime and the script
      before the user's arguments. */
  method Run(argv: seq<string>) returns (o: Outcome)
    ensures (|argv| <= 2 || argv[2] != "build") ==> o == Help(1)
    ensures |argv| > 2 && argv[2] == "build" ==>
              var flags := Parsed(argv[2..], |argv[2..]|);
              o == if "--help" in flags then Help(1)
                   else Build(Flag(flags, "--config-path"), Flag(flags, "--skip-build") == Some("true"),
                              Flag(flags, "--standalone-mode") == Some("true"))
  {
    if |argv| <= 2 || argv[2] != "build" {
      return Help(1);
    }
    var args := ParseArgs(argv[2..]);
    if "--help" in args {
      return Help(1);
    }
    o := Build(Flag(args, "--config-path"), Flag(args, "--skip-build") == Some("true"),
               Flag(args, "--standalone-mode") == Some("true"));
  }

  /** `--skip-build` with any value but `true` does not skip the build. */
  lemma SkipBuildNeedsExactTrue(flag: string)
    requires flag != "" && !StartsWith(flag, "-") && flag != "true"
    ensures var args := ["build", "--skip-build", flag];
            Flag(Parsed(args, |args|), "--skip-build") == Some(flag) &&
            Flag(Parsed(args, |args|), "--skip-build") != Some("true")
  {
    var args := ["build", "--skip-build", flag];
    assert StartsWith(args[1], "--");
    ParsedLastWins(args, 3, 1);
  }
}
