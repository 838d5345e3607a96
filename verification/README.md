# Wazuh-to-Discord alert forwarder, modelled in Dafny

`custom-discord.py` is a Wazuh integration script. For each alert, Wazuh runs it with the alert file, a user string and the webhook URL, plus optional extra arguments. Its `main` function logs how it was called, then loads an optional options file and the required alert file. It builds a payload from the alert and hands that payload and the webhook URL to `send_msg`, which posts it. The payload has the top-level keys `color`, `title`, `description`, `text`, `fields` and `ts`, and each field has a `title` and a `value`. The module-level body of the script stops `main` from ever running as written; see "## Left out".

This project models the script's decision logic as pure Dafny functions and proves properties about it:

- `message.dfy` (module `Message`) models `generate_msg`:
  - the three-tier colour mapping;
  - the one-element title;
  - the description placeholder, the body text and the timestamp;
  - the ordered field list.
- `invocation.dfy` (module `Invocation`) models the argument handling of `main` and `process_args`:
  - the bad-arguments test;
  - the unconditional invocation log line;
  - the debug flag;
  - the first-match scan for the options file.
- `pipeline.dfy` (module `Pipeline`) models how the run ends:
  - the outcome policy of `get_json_alert` and `get_json_options`;
  - the order in which `process_args` loads the two files;
  - whether the run ends by handing a message to `send_msg`, by an exit code, or by an exception escaping `main`.
- `text.dfy` (module `Text`) and `wrappers.dfy` (module `Wrappers`) hold helpers:
  - decimal rendering of integers, and parsing of canonical digit strings back;
  - Python's `s[-k:]` slice, including `k` = 0, where it is the whole string;
  - joining and splitting on a separator, with their round trip;
  - `Option` and `Result`.

Reading a file is given as a parameter: a function from a path to `NotFound | Invalid | Unreadable | Loaded(doc)`. The options document has a type parameter, because nothing reads its contents. The alert is typed. The keys the builder reads unconditionally are plain fields. The keys it checks with `in` or `.get` are `Option`s.

Points where the code is easy to misread:

- The title is `"Wazuh Alert - Rule " + id`. Because of the trailing comma on line 224 it is a one-element tuple, so `Msg.title` is a sequence of one string.
- The Rule ID value is `"<id> _(Level <level>)_"`, with the level as Python prints an int.
- `agent` and `agentless` are checked by two independent `if`s. Both fields may appear, Agent first.
- Options are loaded before the alert. A failing options file therefore exits 7 even when the alert file is missing.
- On the options file, every failure other than a missing file exits 7. The alert loader catches only a missing file (exit 6) and invalid JSON (exit 7). Any other error reading the alert propagates out of `main` (`Ending.Raised`).

## Model

| member | source | states |
|---|---|---|
| Message.ColorFor | custom-discord.py:192-203 | level < 5 gives green "5763719", 5..7 gives yellow "16705372", above 7 gives red "15548997", each as an if-and-only-if, so every level is in exactly one tier |
| Message.ColorMonotone | custom-discord.py:195-203 | a higher level never gets a less severe colour |
| Message.ColorBoundaries | custom-discord.py:195-203 | levels 4, 5, 7, 8 map to green, yellow, yellow, red |
| Message.GenerateMsg | custom-discord.py:221-250 | colour tier of the rule level; one-element title "Wazuh Alert - Rule <id>"; the rule description or "N/A"; text is full_log or null; ts is the alert id; 2 to 4 fields ending with Location then a Rule ID field |
| Message.FieldOrder | custom-discord.py:228-246 | field titles are exactly [Agent if agent] + [Agentless Host if agentless] + [Location, Rule ID], and their count is 2 plus one for each optional key present |
| Message.OptionalFieldsReadBack | custom-discord.py:229-241 | looking up "Agent" gives "(id) - name" and "Agentless Host" gives the host exactly when the alert has that key, and nothing otherwise |
| Message.FixedFieldsReadBack | custom-discord.py:195-246 | looking up "Location" gives the location; the Rule ID value parses back to the rule id and the level; the colour is the tier of that level |
| Message.RuleIdValueRoundTrip | custom-discord.py:243-246 | "<id> _(Level <level>)_" parses back to (id, level) for every id string and every integer level, negative ones included |
| Message.RuleIdValueExact | custom-discord.py:243-246 | a string parses to (id, level) if and only if it is exactly the Rule ID text printed for that id and level, so with FixedFieldsReadBack the field's text is pinned: no zero padding, no "-0" |
| Message.AgentValueRoundTrip | custom-discord.py:232-235 | when the agent id contains no ')', splitting the Agent value after "(" at the first ')', which must be followed by " - ", gives back the agent id and the agent name |
| Message.DescriptionPlaceholder | custom-discord.py:225 | the description is "N/A" if and only if the rule has no description or its description is "N/A" |
| Message.ExampleWithoutAgent | custom-discord.py:192-248 | a level-10 alert with no agent, agentless or description gives red, "N/A" and exactly [Location, Rule ID "100001 _(Level 10)_"] |
| Message.ExampleWithAgent | custom-discord.py:229-236 | adding agent 001/web01 puts the field Agent = "(001) - web01" first |
| Invocation.InvocationLine | custom-discord.py:91-102 | with fewer than 4 arguments the line is "# ERROR: Wrong arguments"; otherwise it is arguments 1 to 5 joined by single spaces, with a missing 4th or 5th argument given as "" |
| Invocation.InvocationLineReadBack | custom-discord.py:92-98 | when the logged arguments contain no spaces, splitting the line on spaces gives back arguments 1 to 5 |
| Invocation.DebugEnabled | custom-discord.py:99 | debug is on if and only if there are more than 4 arguments and argument 4 is "debug"; it is never on for bad arguments |
| Invocation.EndsWithOptionsIsSuffix | custom-discord.py:138 | `arg[-7:] == "options"` holds exactly when "options" is a suffix of the argument, so shorter arguments never match |
| Invocation.FirstOptionsFrom | custom-discord.py:137-140 | returns the least index at or after the start whose argument ends in "options", or nothing when no such argument exists |
| Invocation.ScanOptionsPath | custom-discord.py:134-140 | the loop returns "" exactly when no argument from index 4 on ends in "options", and otherwise the first such argument |
| Invocation.OptionsPathFound | custom-discord.py:134-140 | an options path is found if and only if some argument from index 4 on has the suffix "options" |
| Invocation.LaterMatchesIgnored | custom-discord.py:137-140 | arguments after the first match do not change the options path |
| Invocation.DebugSlotIsNotOptions | custom-discord.py:99-138 | when argument 4 is "debug", it is never taken as the options file |
| Pipeline.LoadAlert | custom-discord.py:288-296 | a missing file gives exit 6 and invalid JSON gives exit 7; any other error propagates; the document is returned exactly when it loaded |
| Pipeline.LoadOptions | custom-discord.py:317-324 | a missing file is tolerated and gives None; a loaded document is returned; every other failure gives exit 7 |
| Pipeline.ProcessArgs | custom-discord.py:129-158 | a delivery always carries GenerateMsg of the loaded alert and goes to argument 3 |
| Pipeline.Main | custom-discord.py:86-117 | the logged text is the invocation line plus a newline; debug follows argument 4; bad arguments exit 2 with debug off; exit codes are only 2, 6 or 7; a message is delivered exactly when the arguments are good, the options file is loaded or missing, and the alert loaded |
| Pipeline.LoaderFailuresSendNothing | custom-discord.py:143-158 | an options failure exits 7 whatever the alert file holds; with usable options, a missing alert exits 6, invalid alert JSON exits 7, and any other alert error raises; none of these delivers |
| Pipeline.OptionsDoNotAffectDelivery | custom-discord.py:143-151 | whether the options file is loaded or missing, and whatever it contains, the run is the same delivery of the alert's message to argument 3 |
| Pipeline.NoOptionsArgumentIsTolerated | custom-discord.py:134-143 | with no argument ending in "options", the empty path is opened; when that reports a missing file, the loaded alert is delivered |

## Left out

- The module-level script body (custom-discord.py:46-81) is not modelled. As written it always raises before `main(sys.argv)` (line 327) is reached and before any post. It raises an IndexError at lines 46-48 with fewer than four argv entries, or another error at lines 51-55: FileNotFoundError or JSONDecodeError on reading, KeyError on a missing `rule.level`, or TypeError when the document is not a JSON object. It raises KeyError at line 61 when the alert has no `agentless` key and no `agent.name`, and KeyError at line 68 when `rule.id` is missing, since the `"title"` entry is evaluated before `"color"`. Failing all of those, it raises NameError at line 69, which reads the undefined `color` before the post at line 81. So in the script as written, none of the endings of `main` happens: no exit 2, 6 or 7 and no delivery. The model describes `main` as if lines 46-81 were removed.
- The `requests` import guard that exits with 1 (lines 23-28) is not modelled. It is an environment dependency check.
- Writing the log file is assumed to succeed. If `open(LOG_FILE, "a")` at line 105 fails, or a `debug()` write fails (including one inside an `except` branch at lines 292, 295, 321 or 323), the source ends with an exception escaping `main`. `Pipeline.Main` never ends that way for these writes: it ends with exit 2, 6 or 7 or with a delivery.
- The side effects themselves are not modelled: opening and appending to the log file, `print`, and `requests.post`. The model records only what is logged unconditionally, whether debug tracing is on, and the payload and URL handed to `send_msg`.
- The text of the debug trace lines is not modelled. Several of them embed Python `repr`s of dictionaries.
- A transport failure inside `send_msg` is not modelled, and neither is the exit status 0 after a successful post. `Delivered` means only that `send_msg` is called.
- JSON parsing and `json.dumps` are not modelled. The alert and the payload are structured datatypes. Because of this, the emptiness test on the serialised message (line 153) has no counterpart: a serialised dictionary is never empty.
- Message.GenerateMsg: alerts that lack `rule.level`, `rule.id`, `location` or `id` cannot be represented, and neither can an alert with `agent` but no `agent.id`/`agent.name`, or with `agentless` but no `agentless.host`. The source raises KeyError for these, and it escapes `main` as an exception. A non-integer `rule.level` is not represented either. Nor is an `agent` or `agentless` key holding null, since `None` means the key is absent: in the source the `in` test at line 229 or 237 passes, then line 233 or 240 raises TypeError, which escapes `main`. Every JSON value the builder copies is typed as a string. A `description` key holding null therefore cannot be represented: line 225 only checks that the key is present, so the source gives a null description rather than "N/A", while the model's `None` means the key is absent. Likewise lines 242 and 248 copy `location` and `id` of any JSON type unchanged, and the model admits only strings there.
- Pipeline.LoadAlert: the `Unreadable` outcome stands for every exception other than FileNotFoundError and JSONDecodeError. The model does not say which one occurred.
- The options document's contents are not modelled. `generate_msg` never reads them.
- The user argument (index 2) is not modelled beyond appearing in the log line. The `main` pipeline does not use it.
