/** `Config::build` in src/lib.rs: the command line is the program name, the input file, an
    option and the output file. */
module Config {
  import opened Wrappers

  datatype Config = Config(inputFile: string, outputFile: string)

  const NoInput: string := "Didn't get an input file"
  const NoOption: string := "Didn't get an option"
  const NoOutput: string := "Didn't get an output file"

  /** The next argument and the rest, as `Iterator::next` yields them. */
  function Next(args: seq<string>): Option<(string, seq<string>)> {
    if args == [] then None else Some((args[0], args[1..]))
  }

  /** The program name is skipped; each missing argument stops with its own message. */
  function Build(args: seq<string>): (r: Result<Config, string>)
    ensures |args| <= 1 <==> r == Err(NoInput)
    ensures |args| == 2 <==> r == Err(NoOption)
    ensures |args| == 3 <==> r == Err(NoOutput)
    ensures r.Ok? <==> |args| >= 4
    ensures r.Ok? ==> r.value == Config(args[1], args[3])
  {
    var rest := if args == [] then [] else args[1..];
    match Next(rest)
    case None => Err(NoInput)
    case Some((inputFile, rest1)) =>
      match Next(rest1)
      case None => Err(NoOption)
      case Some((_, rest2)) =>
        match Next(rest2)
        case None => Err(NoOutput)
        case Some((outputFile, _)) => Ok(Config(inputFile, outputFile))
  }

  /** Neither the option nor any argument after the output file affects the result. */
  lemma BuildIgnoresOptionAndExtras(args: seq<string>, option: string, extra: seq<string>)
    requires |args| >= 4
    ensures Build(args[2 := option] + extra) == Build(args)
  {
  }
}
