/**
 Argument handling of custom-discord.py: the bad-arguments decision and the
 unconditional invocation log line of `main`, the debug flag it derives, and
 the scan in `process_args` that picks the options file among the arguments.
 `args` is the whole argument vector, `args[0]` being the script's own path.
 */
module Invocation {
  import opened Wrappers
  import opened Text

  const WrongArguments: string := "# ERROR: Wrong arguments"
  const DebugWord: string := "debug"
  const OptionsSuffix: string := "options"

  /** Positions of the alert path and the webhook URL, and the first optional position. */
  const AlertIndex: nat := 1
  const WebhookIndex: nat := 3
  const FirstOptional: nat := 4

  /** Fewer than four entries (script path plus three required arguments) are rejected. */
  predicate BadArguments(args: seq<string>) {
    |args| < 4
  }

  /** `args[i]` when it exists, else the empty string. */
  function Slot(args: seq<string>, i: nat): string {
    if |args| > i then args[i] else ""
  }

  /**
   The line appended to the integrations log on every run, before anything is
   loaded: the error marker for bad arguments, otherwise the five argument
   positions 1 to 5 separated by single spaces, missing optional ones empty.
   */
  function InvocationLine(args: seq<string>): (line: string)
    ensures BadArguments(args) ==> line == WrongArguments
    ensures !BadArguments(args) ==>
      line == Join([args[1], args[2], args[3], Slot(args, 4), Slot(args, 5)], ' ')
  {
    if |args| >= 4 then
      var words := [args[1], args[2], args[3], Slot(args, 4), Slot(args, 5)];
      assert Join(words[3..], ' ') == words[3] + " " + words[4];
      assert Join(words[2..], ' ') == words[2] + " " + words[3] + " " + words[4];
      assert Join(words[1..], ' ') == words[1] + " " + words[2] + " " + words[3] + " " + words[4];
      args[1] + " " + args[2] + " " + args[3] + " " + Slot(args, 4) + " " + Slot(args, 5)
    else
      WrongArguments
  }

  /**
   When no logged argument contains a space, splitting the log line on spaces
   gives back argument positions 1 to 5.
   */
  lemma InvocationLineReadBack(args: seq<string>)
    requires !BadArguments(args)
    requires forall i :: 1 <= i < |args| && i <= 5 ==> !Contains(args[i], ' ')
    ensures Split(InvocationLine(args), ' ')
         == [args[1], args[2], args[3], Slot(args, 4), Slot(args, 5)]
  {
    var words := [args[1], args[2], args[3], Slot(args, 4), Slot(args, 5)];
    assert forall i :: 0 <= i < |words| ==> !Contains(words[i], ' ');
    SplitJoin(words, ' ');
  }

  /**
   The debug flag. `main` assigns it only on the well-formed branch, and the
   module-level default is false.
   */
  function DebugEnabled(args: seq<string>): (d: bool)
    ensures d <==> |args| > 4 && args[4] == DebugWord
    ensures d ==> !BadArguments(args)
  {
    if |args| >= 4 then |args| > 4 && args[4] == DebugWord else false
  }

  /** The source's `arg[-7:] == "options"` test. */
  predicate EndsWithOptions(arg: string) {
    TailSlice(arg, |OptionsSuffix|) == OptionsSuffix
  }

  /** The slice test is the suffix test; in particular no argument shorter than "options" passes. */
  lemma EndsWithOptionsIsSuffix(arg: string)
    ensures EndsWithOptions(arg) <==> HasSuffix(arg, OptionsSuffix)
    ensures |arg| < |OptionsSuffix| ==> !EndsWithOptions(arg)
  {
    TailSliceEqualsIffSuffix(arg, OptionsSuffix);
  }

  /** Index of the first argument at or after `from` that ends in "options". */
  function FirstOptionsFrom(args: seq<string>, from: nat): (r: Option<nat>)
    ensures r.Some? ==> from <= r.value < |args| && EndsWithOptions(args[r.value])
    ensures r.Some? ==> forall j :: from <= j < r.value ==> !EndsWithOptions(args[j])
    ensures r.None? ==> forall j :: from <= j < |args| ==> !EndsWithOptions(args[j])
    decreases |args| - from
  {
    if from >= |args| then None
    else if EndsWithOptions(args[from]) then Some(from)
    else FirstOptionsFrom(args, from + 1)
  }

  /** The options file path: the first match from position 4 on, or "" when there is none. */
  function OptionsPath(args: seq<string>): string {
    match FirstOptionsFrom(args, FirstOptional)
    case None => ""
    case Some(k) => args[k]
  }

  /** The loop of `process_args`, scanning from position 4 and stopping at the first match. */
  method ScanOptionsPath(args: seq<string>) returns (path: string)
    ensures path == "" <==> forall j :: FirstOptional <= j < |args| ==> !EndsWithOptions(args[j])
    ensures path != "" ==>
      exists k :: (FirstOptional <= k < |args| && path == args[k] && EndsWithOptions(args[k])
                   && forall j :: FirstOptional <= j < k ==> !EndsWithOptions(args[j]))
    ensures path == OptionsPath(args)
  {
    path := "";
    var idx := FirstOptional;
    while idx < |args|
      invariant FirstOptional <= idx
      invariant forall j :: FirstOptional <= j < idx && j < |args| ==> !EndsWithOptions(args[j])
      invariant FirstOptionsFrom(args, FirstOptional) == FirstOptionsFrom(args, idx)
      decreases |args| - idx
    {
      if EndsWithOptions(args[idx]) {
        path := args[idx];
        EndsWithOptionsIsSuffix(path);
        return;
      }
      idx := idx + 1;
    }
  }

  /** An options path is found exactly when some argument from position 4 on ends in "options". */
  lemma OptionsPathFound(args: seq<string>)
    ensures OptionsPath(args) != ""
        <==> exists k :: FirstOptional <= k < |args| && HasSuffix(args[k], OptionsSuffix)
  {
    if k :| FirstOptional <= k < |args| && HasSuffix(args[k], OptionsSuffix) {
      EndsWithOptionsIsSuffix(args[k]);
      var r := FirstOptionsFrom(args, FirstOptional);
      EndsWithOptionsIsSuffix(args[r.value]);
    } else {
      var r := FirstOptionsFrom(args, FirstOptional);
      if r.Some? {
        EndsWithOptionsIsSuffix(args[r.value]);
      }
    }
  }

  /** Arguments after the first match do not influence the options path. */
  lemma {:induction false} LaterMatchesIgnored(args: seq<string>, other: seq<string>, k: nat)
    requires FirstOptionsFrom(args, FirstOptional) == Some(k)
    requires |other| > k && other[..k + 1] == args[..k + 1]
    ensures OptionsPath(other) == args[k]
  {
    assert forall j :: 0 <= j <= k ==> other[j] == args[..k + 1][j] == args[j];
    var r := FirstOptionsFrom(other, FirstOptional);
    assert EndsWithOptions(other[k]);
    assert r.Some? && r.value <= k;
  }

  /** When position 4 holds "debug" it cannot be the options file. */
  lemma DebugSlotIsNotOptions(args: seq<string>)
    requires DebugEnabled(args)
    ensures FirstOptionsFrom(args, FirstOptional) != Some(FirstOptional)
  {
    EndsWithOptionsIsSuffix(args[4]);
  }
}
