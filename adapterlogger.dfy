/** The runtime logger of the adapters: `debug` prints when the global
    `openNextDebug` flag is set, `warn` always prints, and `error` lets an
    internal error argument choose the channel. The result is the channel a
    call prints on. */
module AdapterLogger {
  import opened Common

  /** An argument as `error` sees it: an internal error (its
      `__openNextInternal` flag set) with its `logLevel`, a value without
      the flag, or `null`/`undefined`, whose flag cannot be read. */
  datatype Arg = Internal(logLevel: Option<int>) | Plain | Nullish

  /** `console.log`, `console.warn`, `console.error`, or nothing. */
  datatype Channel = Silent | Log | WarnChannel | ErrorChannel

  /** `debug` */
  function Debug(openNextDebug: bool): (c: Channel)
    ensures c == Log <==> openNextDebug
    ensures c == Silent <==> !openNextDebug
  {
    if openNextDebug then Log else Silent
  }

  /** `warn` */
  function Warn(): (c: Channel)
    ensures c == WarnChannel
  {
    WarnChannel
  }

  /** `args.some(arg => arg.__openNextInternal)`, and then `find` with the
      same test: the index of the first internal error. Reading the flag
      of a `null` or `undefined` argument met first throws a `TypeError`. */
  function FirstInternal(args: seq<Arg>): (r: Result<Option<int>, string>)
    ensures r.Ok? && r.value.Some? ==>
              0 <= r.value.value < |args| && args[r.value.value].Internal? &&
              forall j :: 0 <= j < r.value.value ==> args[j].Plain?
    ensures r.Ok? && r.value.None? ==> forall j :: 0 <= j < |args| ==> args[j].Plain?
    ensures r.Err? ==> exists j :: 0 <= j < |args| && args[j].Nullish? && forall k :: 0 <= k < j ==> args[k].Plain?
  {
    if args == [] then Ok(None)
    else if args[0].Nullish? then Err("TypeError: Cannot read properties of undefined (reading '__openNextInternal')")
    else if args[0].Internal? then Ok(Some(0))
    else
      var rest := FirstInternal(args[1..]);
      if rest.Err? then
        var j :| 0 <= j < |args[1..]| && args[1..][j].Nullish? && forall k :: 0 <= k < j ==> args[1..][k].Plain?;
        assert args[j + 1].Nullish?;
        Err(rest.error)
      else if rest.value.Some? then Ok(Some(rest.value.value + 1))
      else Ok(None)
  }

  /** `error`: without an internal error it goes to `console.error`;
      otherwise the first one's `logLevel` picks `debug` (0), `warn` (1) or
      `console.error` (anything else). */
  function Error(args: seq<Arg>, openNextDebug: bool): (r: Result<Channel, string>)
    ensures FirstInternal(args).Err? <==> r.Err?
    ensures FirstInternal(args) == Ok(None) ==> r == Ok(ErrorChannel)
    ensures var f := FirstInternal(args);
            f.Ok? && f.value.Some? ==>
              var level := args[f.value.value].logLevel;
              r == Ok(if level == Some(0) then Debug(openNextDebug)
                      else if level == Some(1) then Warn()
                      else ErrorChannel)
  {
    var found := FirstInternal(args);
    if found.Err? then Err(found.error)
    else if found.value.None? then Ok(ErrorChannel)
    else
      var level := args[found.value.value].logLevel;
      if level == Some(0) then Ok(Debug(openNextDebug))
      else if level == Some(1) then Ok(Warn())
      else Ok(ErrorChannel)
  }

  /** Only the first internal error decides: later ones are ignored. */
  lemma {:induction false} FirstInternalDecides(plain: seq<Arg>, level: Option<int>, rest: seq<Arg>, openNextDebug: bool)
    requires forall j :: 0 <= j < |plain| ==> plain[j].Plain?
    ensures Error(plain + [Internal(level)] + rest, openNextDebug) ==
            Ok(if level == Some(0) then Debug(openNextDebug) else if level == Some(1) then Warn() else ErrorChannel)
  {
    FirstInternalAfterPlain(plain, [Internal(level)] + rest);
    assert plain + [Internal(level)] + rest == plain + ([Internal(level)] + rest);
  }

  lemma {:induction false} FirstInternalAfterPlain(plain: seq<Arg>, rest: seq<Arg>)
    requires forall j :: 0 <= j < |plain| ==> plain[j].Plain?
    requires rest != [] && rest[0].Internal?
    ensures FirstInternal(plain + rest) == Ok(Some(|plain|))
  {
    if plain != [] {
      assert (plain + rest)[1..] == plain[1..] + rest;
      FirstInternalAfterPlain(plain[1..], rest);
    }
  }

  /** The methods of `awsLogger`. */
  datatype AwsMethod = Trace | DebugMethod | InfoMethod | WarnMethod | ErrorMethod

  /** `awsLogger`: `trace` and `debug` do nothing, `info` is `debug`, and
      `warn` and `error` are themselves. */
  function AwsLog(m: AwsMethod, args: seq<Arg>, openNextDebug: bool): (r: Result<Channel, string>)
    ensures m == Trace || m == DebugMethod ==> r == Ok(Silent)
    ensures m == InfoMethod ==> r == Ok(Debug(openNextDebug))
    ensures m == WarnMethod ==> r == Ok(WarnChannel)
    ensures m == ErrorMethod ==> r == Error(args, openNextDebug)
  {
    match m
    case Trace => Ok(Silent)
    case DebugMethod => Ok(Silent)
    case InfoMethod => Ok(Debug(openNextDebug))
    case WarnMethod => Ok(Warn())
    case ErrorMethod => Error(args, openNextDebug)
  }
}
