/** The build-time logger: a module-wide level, initially `error`, filters
    what `debug`, `info` and `warn` print; `error` always prints. Each method
    returns the line it would print, or `None` when it stays silent. */
module BuildLogger {
  import opened Common

  datatype Level = Info | Debug | Warn | Error

  /** Where a line goes and the coloured tag in front of it. */
  datatype Stream = Stdout | Stderr
  datatype Line = Line(stream: Stream, tag: string, args: seq<string>)

  /** How verbose a level is: `debug` most, `error` least. */
  function Verbosity(level: Level): (n: nat)
    ensures n <= 3
  {
    match level
    case Debug => 3
    case Info => 2
    case Warn => 1
    case Error => 0
  }

  /** The methods of the logger, each printing at its own level. */
  datatype Method = DebugMethod | InfoMethod | WarnMethod | ErrorMethod

  function MethodLevel(m: Method): Level {
    match m
    case DebugMethod => Debug
    case InfoMethod => Info
    case WarnMethod => Warn
    case ErrorMethod => Error
  }

  /** A method prints when the level is at least as verbose as the method's
      own. */
  predicate Prints(m: Method, level: Level) {
    Verbosity(level) >= Verbosity(MethodLevel(m))
  }

  class Logger {
    var level: Level

    constructor ()
      ensures level == Error
    {
      level := Error;
    }

    /** `setLevel` */
    method SetLevel(level: Level)
      modifies this
      ensures this.level == level
    {
      this.level := level;
    }

    /** `debug`: prints only at level `debug`. */
    method DebugLog(args: seq<string>) returns (out: Option<Line>)
      ensures out.Some? <==> level == Debug
      ensures out.Some? <==> Prints(DebugMethod, level)
      ensures out.Some? ==> out.value == Line(Stdout, "DEBUG", args)
    {
      if level != Debug {
        return None;
      }
      return Some(Line(Stdout, "DEBUG", args));
    }

    /** `info`: silent at `warn` and `error`. */
    method InfoLog(args: seq<string>) returns (out: Option<Line>)
      ensures out.Some? <==> level == Info || level == Debug
      ensures out.Some? <==> Prints(InfoMethod, level)
      ensures out.Some? ==> out.value == Line(Stdout, "", args)
    {
      if level == Warn || level == Error {
        return None;
      }
      return Some(Line(Stdout, "", args));
    }

    /** `warn`: silent only at `error`. */
    method WarnLog(args: seq<string>) returns (out: Option<Line>)
      ensures out.Some? <==> level != Error
      ensures out.Some? <==> Prints(WarnMethod, level)
      ensures out.Some? ==> out.value == Line(Stderr, "WARN", args)
    {
      if level == Error {
        return None;
      }
      return Some(Line(Stderr, "WARN", args));
    }

    /** `error`: always prints. */
    method ErrorLog(args: seq<string>) returns (out: Option<Line>)
      ensures out == Some(Line(Stderr, "ERROR", args))
      ensures Prints(ErrorMethod, level)
    {
      return Some(Line(Stderr, "ERROR", args));
    }
  }
}
