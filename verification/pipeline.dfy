/**
 The run of custom-discord.py from `main` down to the call of `send_msg`:
 argument check and invocation logging, then `process_args` loading the
 options file (optional) and the alert file (required), building the message
 and handing it to the webhook.

 File reads are abstract: the environment is given as two functions from a
 path to what opening and parsing that file yields. The model records the
 decisions of a run (what is logged unconditionally, whether debug tracing is
 on, and whether it ends by delivering a message, by a given exit code, or by
 an exception escaping `main`), not the side effects themselves.
 */
module Pipeline {
  import opened Wrappers
  import opened Message
  import opened Invocation
  import opened Text

  /** Exit codes of the script. */
  const ErrBadArguments: int := 2
  const ErrFileNotFound: int := 6
  const ErrInvalidJson: int := 7

  /**
   What opening and parsing a JSON file yields: the file is missing, its
   contents are not valid JSON, some other error is raised while opening or
   reading it (a permission error, say), or the parsed document.
   */
  datatype FileOutcome<+T> = NotFound | Invalid | Unreadable | Loaded(doc: T)

  /** How a run ends. */
  datatype Ending =
    | Delivered(msg: Msg, webhook: string)   // `send_msg` is called with this payload and URL
    | Exited(code: int)                      // `sys.exit(code)`
    | Raised                                 // an exception propagates out of `main`

  datatype Run = Run(logged: string, debug: bool, ending: Ending)

  /**
   `get_json_alert`: a missing file exits with 6, invalid JSON exits with 7,
   and any other error is not caught there and propagates.
   */
  function LoadAlert(o: FileOutcome<Alert>): (r: Result<Alert, Ending>)
    ensures r.Success? <==> o.Loaded?
    ensures r.Success? ==> r.value == o.doc
    ensures o.NotFound? ==> r == Failure(Exited(ErrFileNotFound))
    ensures o.Invalid? ==> r == Failure(Exited(ErrInvalidJson))
    ensures o.Unreadable? ==> r == Failure(Raised)
  {
    match o
    case Loaded(a) => Success(a)
    case NotFound => Failure(Exited(ErrFileNotFound))
    case Invalid => Failure(Exited(ErrInvalidJson))
    case Unreadable => Failure(Raised)
  }

  /**
   `get_json_options`: a missing file is tolerated and the function returns
   None; every other failure is caught and exits with 7.
   */
  function LoadOptions<O>(o: FileOutcome<O>): (r: Result<Option<O>, Ending>)
    ensures r.Success? <==> o.Loaded? || o.NotFound?
    ensures o.Loaded? ==> r == Success(Some(o.doc))
    ensures o.NotFound? ==> r == Success(None)
    ensures r.Failure? ==> r.error == Exited(ErrInvalidJson)
  {
    match o
    case Loaded(v) => Success(Some(v))
    case NotFound => Success(None)
    case Invalid => Failure(Exited(ErrInvalidJson))
    case Unreadable => Failure(Exited(ErrInvalidJson))
  }

  /**
   `process_args`: options are loaded before the alert, so an options failure
   pre-empts any alert failure. The loaded options are not used by the
   message builder. The emptiness test on the serialised message can never
   fire and has no counterpart here.
   */
  function ProcessArgs<O>(
    args: seq<string>,
    readAlert: string -> FileOutcome<Alert>,
    readOptions: string -> FileOutcome<O>): (e: Ending)
    requires !BadArguments(args)
    ensures e.Delivered? ==> e.webhook == args[WebhookIndex]
    ensures e.Delivered? ==>
      readAlert(args[AlertIndex]).Loaded? && e.msg == GenerateMsg(readAlert(args[AlertIndex]).doc)
  {
    match LoadOptions(readOptions(OptionsPath(args)))
    case Failure(stop) => stop
    case Success(_) =>
      match LoadAlert(readAlert(args[AlertIndex]))
      case Failure(stop) => stop
      case Success(alert) => Delivered(GenerateMsg(alert), args[WebhookIndex])
  }

  /** `main`: log the invocation, reject bad arguments with exit 2, otherwise process them. */
  function Main<O>(
    args: seq<string>,
    readAlert: string -> FileOutcome<Alert>,
    readOptions: string -> FileOutcome<O>): (r: Run)
    ensures r.logged == InvocationLine(args) + "\n"
    ensures r.debug <==> |args| > 4 && args[4] == DebugWord
    ensures BadArguments(args) ==> r.ending == Exited(ErrBadArguments) && !r.debug
    ensures r.ending.Exited? ==> r.ending.code in {ErrBadArguments, ErrFileNotFound, ErrInvalidJson}
    ensures r.ending.Delivered? <==>
      && !BadArguments(args)
      && (readOptions(OptionsPath(args)).Loaded? || readOptions(OptionsPath(args)).NotFound?)
      && readAlert(args[AlertIndex]).Loaded?
  {
    var logged := InvocationLine(args) + "\n";
    if BadArguments(args) then
      Run(logged, false, Exited(ErrBadArguments))
    else
      Run(logged, DebugEnabled(args), ProcessArgs(args, readAlert, readOptions))
  }

  /**
   Every loader failure ends the run with its own code, and nothing is sent:
   options failures exit 7 whatever the alert file holds; with usable options,
   a missing alert exits 6, invalid alert JSON exits 7, and any other alert
   read error escapes as an exception.
   */
  lemma LoaderFailuresSendNothing<O>(
    args: seq<string>,
    readAlert: string -> FileOutcome<Alert>,
    readOptions: string -> FileOutcome<O>)
    requires !BadArguments(args)
    ensures var o := readOptions(OptionsPath(args));
      (o.Invalid? || o.Unreadable?) ==> Main(args, readAlert, readOptions).ending == Exited(ErrInvalidJson)
    ensures var o := readOptions(OptionsPath(args)); var a := readAlert(args[AlertIndex]);
      (o.Loaded? || o.NotFound?) ==>
        && (a.NotFound? ==> Main(args, readAlert, readOptions).ending == Exited(ErrFileNotFound))
        && (a.Invalid? ==> Main(args, readAlert, readOptions).ending == Exited(ErrInvalidJson))
        && (a.Unreadable? ==> Main(args, readAlert, readOptions).ending == Raised)
  {
  }

  /**
   A loaded alert is delivered to the webhook argument whether the options
   file was found or missing, and the payload does not depend on what the
   options file held.
   */
  lemma OptionsDoNotAffectDelivery<O>(
    args: seq<string>,
    readAlert: string -> FileOutcome<Alert>,
    readOptions: string -> FileOutcome<O>,
    otherOptions: string -> FileOutcome<O>)
    requires !BadArguments(args)
    requires readAlert(args[AlertIndex]).Loaded?
    requires readOptions(OptionsPath(args)).Loaded? || readOptions(OptionsPath(args)).NotFound?
    requires otherOptions(OptionsPath(args)).Loaded? || otherOptions(OptionsPath(args)).NotFound?
    ensures Main(args, readAlert, readOptions)
         == Main(args, readAlert, otherOptions)
         == Run(InvocationLine(args) + "\n", DebugEnabled(args),
                Delivered(GenerateMsg(readAlert(args[AlertIndex]).doc), args[WebhookIndex]))
  {
  }

  /**
   With no argument naming an options file, the options path is empty; when
   opening "" reports a missing file, as opening an empty path does, the run
   goes on to the alert.
   */
  lemma NoOptionsArgumentIsTolerated<O>(
    args: seq<string>,
    readAlert: string -> FileOutcome<Alert>,
    readOptions: string -> FileOutcome<O>)
    requires !BadArguments(args)
    requires forall j :: FirstOptional <= j < |args| ==> !HasSuffix(args[j], OptionsSuffix)
    requires readOptions("") == NotFound
    requires readAlert(args[AlertIndex]).Loaded?
    ensures Main(args, readAlert, readOptions).ending
         == Delivered(GenerateMsg(readAlert(args[AlertIndex]).doc), args[WebhookIndex])
  {
    OptionsPathFound(args);
  }
}
