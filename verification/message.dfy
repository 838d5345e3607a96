/**
 The message builder of custom-discord.py (`generate_msg`): a pure transform
 from one Wazuh alert to the chat payload that is posted to the webhook.

 The alert is typed: the keys the builder reads unconditionally (`rule.id`,
 `rule.level`, `location`, `id`, and `agent.id`/`agent.name` or
 `agentless.host` once `agent`/`agentless` is present) are plain fields, and
 the keys it tests for are `Option`s. The JSON serialisation of the result is
 not modelled; `Msg` is the dictionary that is serialised.
 */
module Message {
  import opened Wrappers
  import opened Text

  /** Colour codes, as decimal strings, of the three severity tiers. */
  const Green: string := "5763719"
  const Yellow: string := "16705372"
  const Red: string := "15548997"

  const TitlePrefix: string := "Wazuh Alert - Rule "
  const NoDescription: string := "N/A"

  /** Titles of the labelled fields, in the order the builder appends them. */
  const AgentTitle: string := "Agent"
  const AgentlessTitle: string := "Agentless Host"
  const LocationTitle: string := "Location"
  const RuleIdTitle: string := "Rule ID"

  datatype Rule = Rule(id: string, level: int, description: Option<string>)
  datatype Agent = Agent(id: string, name: string)
  datatype Agentless = Agentless(host: string)

  datatype Alert = Alert(
    rule: Rule,
    location: string,
    id: string,
    agent: Option<Agent>,
    agentless: Option<Agentless>,
    fullLog: Option<string>)

  datatype Field = Field(title: string, value: string)

  /**
   The payload dictionary. `title` is a one-element sequence: the source
   assigns a one-element tuple there, so the serialised payload carries a
   JSON array holding the title string rather than the string itself.
   */
  datatype Msg = Msg(
    color: string,
    title: seq<string>,
    description: string,
    text: Option<string>,
    fields: seq<Field>,
    ts: string)

  /** Rank of a colour code: 0 for green, 1 for yellow, 2 for anything else (red). */
  function Severity(color: string): nat {
    if color == Green then 0 else if color == Yellow then 1 else 2
  }

  /** The three-tier colour mapping; every level falls in exactly one tier. */
  function ColorFor(level: int): (c: string)
    ensures c == Green <==> level < 5
    ensures c == Yellow <==> 5 <= level <= 7
    ensures c == Red <==> 7 < level
  {
    if level < 5 then Green
    else if level >= 5 && level <= 7 then Yellow
    else Red
  }

  /** A higher level never maps to a less severe colour. */
  lemma ColorMonotone(a: int, b: int)
    requires a <= b
    ensures Severity(ColorFor(a)) <= Severity(ColorFor(b))
  {
  }

  /** The boundary levels 4, 5, 7 and 8 land on the tiers the colour table names. */
  lemma ColorBoundaries()
    ensures ColorFor(4) == Green && ColorFor(5) == Yellow
    ensures ColorFor(7) == Yellow && ColorFor(8) == Red
  {
  }

  function AgentValue(a: Agent): string {
    "(" + a.id + ") - " + a.name
  }

  const LevelOpen: string := " _(Level "
  const LevelClose: string := ")_"

  function RuleIdValue(id: string, level: int): string {
    id + LevelOpen + IntToString(level) + LevelClose
  }

  /**
   Reads the rule id and the level back out of a "Rule ID" field value,
   working from the right so that the rule id may contain any characters.
   */
  function ParseRuleIdValue(v: string): Option<(string, int)> {
    if !HasSuffix(v, LevelClose) then None
    else
      var body := v[..|v| - |LevelClose|];
      var k := TrailingDigitCount(body);
      if k == 0 then None
      else
        assert AllDigits(body[|body| - k..]);
        ParseLevelHead(body[..|body| - k], body[|body| - k..])
  }

  /**
   The part before the level's digits decides its sign and ends with the rule
   id. Only digits as Python prints them are accepted: no leading zero, and no
   "-0".
   */
  function ParseLevelHead(head: string, digits: string): Option<(string, int)>
    requires AllDigits(digits)
  {
    if !Canonical(digits) then None
    else if HasSuffix(head, LevelOpen) then
      Some((head[..|head| - |LevelOpen|], ParseNat(digits) as int))
    else if HasSuffix(head, LevelOpen + "-") && digits[0] != '0' then
      Some((head[..|head| - |LevelOpen| - 1], 0 - ParseNat(digits) as int))
    else None
  }

  /** Taking a Rule ID value apart at its closing bracket and its trailing digits. */
  lemma SplitRuleIdValue(head: string, digits: string)
    requires |head| > 0 && !IsDigit(head[|head| - 1])
    requires |digits| > 0 && AllDigits(digits)
    ensures ParseRuleIdValue(head + digits + LevelClose) == ParseLevelHead(head, digits)
  {
    var v := head + digits + LevelClose;
    var body := head + digits;
    assert v[|v| - |LevelClose|..] == LevelClose;
    assert v[..|v| - |LevelClose|] == body;
    TrailingDigitCountOfAppend(head, digits);
    assert body[..|body| - |digits|] == head;
    assert body[|body| - |digits|..] == digits;
  }

  lemma NonNegativeRuleIdRoundTrip(id: string, level: nat)
    ensures ParseRuleIdValue(RuleIdValue(id, level)) == Some((id, level as int))
  {
    var head := id + LevelOpen;
    var digits := NatToString(level);
    assert RuleIdValue(id, level) == head + digits + LevelClose;
    SplitRuleIdValue(head, digits);
    assert head[..|head| - |LevelOpen|] == id;
    ParseNatOfNatToString(level);
  }

  /** A negative level is printed as the head ending in "-" followed by the digits of its magnitude. */
  lemma NegativeRuleIdValue(id: string, level: int)
    requires level < 0
    ensures RuleIdValue(id, level) == id + (LevelOpen + "-") + NatToString(-level) + LevelClose
  {
    var digits := NatToString(-level);
    assert IntToString(level) == "-" + digits;
    assert id + LevelOpen + ("-" + digits) == id + (LevelOpen + "-") + digits;
  }

  /** The head of a negative level is recognised by its trailing "-". */
  lemma NegativeLevelHead(id: string, n: nat)
    requires n > 0
    ensures ParseLevelHead(id + (LevelOpen + "-"), NatToString(n)) == Some((id, 0 - n))
  {
    var head := id + (LevelOpen + "-");
    var digits := NatToString(n);
    assert !HasSuffix(head, LevelOpen) by {
      assert head[|head| - 1] != LevelOpen[|LevelOpen| - 1];
    }
    assert head[|head| - |LevelOpen| - 1..] == LevelOpen + "-";
    assert head[..|head| - |LevelOpen| - 1] == id;
    ParseNatOfNatToString(n);
  }

  lemma NegativeRuleIdRoundTrip(id: string, level: int)
    requires level < 0
    ensures ParseRuleIdValue(RuleIdValue(id, level)) == Some((id, level))
  {
    var head := id + (LevelOpen + "-");
    NegativeRuleIdValue(id, level);
    assert head[|head| - 1] == '-';
    SplitRuleIdValue(head, NatToString(-level));
    NegativeLevelHead(id, -level);
  }

  /** The "Rule ID" field loses nothing: both the rule id and the level can be read back. */
  lemma RuleIdValueRoundTrip(id: string, level: int)
    ensures ParseRuleIdValue(RuleIdValue(id, level)) == Some((id, level))
  {
    if level < 0 {
      NegativeRuleIdRoundTrip(id, level);
    } else {
      NonNegativeRuleIdRoundTrip(id, level);
    }
  }

  /** An accepted head and digit run are the printed prefix, rule id and level. */
  lemma PrintedFromHead(head: string, digits: string, id: string, level: int)
    requires AllDigits(digits)
    requires ParseLevelHead(head, digits) == Some((id, level))
    ensures head + digits == id + LevelOpen + IntToString(level)
  {
    NatToStringOfParseNat(digits);
    if HasSuffix(head, LevelOpen) {
      assert head == id + LevelOpen;
      assert IntToString(level) == digits;
    } else {
      assert head == id + LevelOpen + "-";
      ParseNatPositive(digits);
      assert IntToString(level) == "-" + digits;
    }
  }

  /** Whatever the parser accepts is exactly the text the builder prints for that rule id and level. */
  lemma ParsedRuleIdValueIsPrinted(v: string, id: string, level: int)
    requires ParseRuleIdValue(v) == Some((id, level))
    ensures v == RuleIdValue(id, level)
  {
    var body := v[..|v| - |LevelClose|];
    var k := TrailingDigitCount(body);
    var head := body[..|body| - k];
    var digits := body[|body| - k..];
    assert v == body + LevelClose;
    assert body == head + digits;
    PrintedFromHead(head, digits, id, level);
  }

  /**
   The "Rule ID" value is characterised by its parser: a string parses to
   (id, level) exactly when it is the text printed for that id and level.
   */
  lemma RuleIdValueExact(v: string, id: string, level: int)
    ensures ParseRuleIdValue(v) == Some((id, level)) <==> v == RuleIdValue(id, level)
  {
    RuleIdValueRoundTrip(id, level);
    if ParseRuleIdValue(v) == Some((id, level)) {
      ParsedRuleIdValueIsPrinted(v, id, level);
    }
  }

  /** The labelled fields: optional Agent, optional Agentless Host, then Location and Rule ID. */
  function Fields(a: Alert): seq<Field> {
    (if a.agent.Some? then [Field(AgentTitle, AgentValue(a.agent.value))] else [])
    + (if a.agentless.Some? then [Field(AgentlessTitle, a.agentless.value.host)] else [])
    + [Field(LocationTitle, a.location)]
    + [Field(RuleIdTitle, RuleIdValue(a.rule.id, a.rule.level))]
  }

  /** Builds the payload for one alert. */
  function GenerateMsg(a: Alert): (m: Msg)
    ensures m.color == Green <==> a.rule.level < 5
    ensures m.color == Yellow <==> 5 <= a.rule.level <= 7
    ensures m.color == Red <==> 7 < a.rule.level
    ensures |m.title| == 1 && m.title[0] == TitlePrefix + a.rule.id
    ensures a.rule.description.Some? ==> m.description == a.rule.description.value
    ensures a.rule.description.None? ==> m.description == NoDescription
    ensures m.text == a.fullLog
    ensures m.ts == a.id
    ensures 2 <= |m.fields| <= 4
    ensures m.fields[|m.fields| - 2] == Field(LocationTitle, a.location)
    ensures m.fields[|m.fields| - 1].title == RuleIdTitle
  {
    Msg(
      ColorFor(a.rule.level),
      [TitlePrefix + a.rule.id],
      a.rule.description.GetOr(NoDescription),
      a.fullLog,
      Fields(a),
      a.id)
  }

  function Titles(fs: seq<Field>): (ts: seq<string>)
    ensures |ts| == |fs|
    ensures forall i :: 0 <= i < |fs| ==> ts[i] == fs[i].title
  {
    seq(|fs|, i requires 0 <= i < |fs| => fs[i].title)
  }

  /**
   Field layout: the titles are exactly the optional "Agent", the optional
   "Agentless Host" (the two tests are independent, so both may appear), then
   "Location" and "Rule ID".
   */
  lemma FieldOrder(a: Alert)
    ensures Titles(GenerateMsg(a).fields)
         == (if a.agent.Some? then [AgentTitle] else [])
          + (if a.agentless.Some? then [AgentlessTitle] else [])
          + [LocationTitle, RuleIdTitle]
    ensures |GenerateMsg(a).fields|
         == 2 + (if a.agent.Some? then 1 else 0) + (if a.agentless.Some? then 1 else 0)
  {
  }

  /** Value of the first field with the given title, if any. */
  function FieldValue(fs: seq<Field>, title: string): (r: Option<string>)
    ensures r.None? <==> forall i :: 0 <= i < |fs| ==> fs[i].title != title
    ensures r.Some? ==> exists i :: 0 <= i < |fs| && fs[i] == Field(title, r.value)
    decreases |fs|
  {
    if |fs| == 0 then None
    else if fs[0].title == title then Some(fs[0].value)
    else
      var r := FieldValue(fs[1..], title);
      assert forall i :: 1 <= i < |fs| ==> fs[i] == fs[1..][i - 1];
      r
  }

  /** The first field carrying a title supplies its value. */
  lemma {:induction false} FieldValueAt(fs: seq<Field>, i: nat, title: string)
    requires i < |fs| && fs[i].title == title
    requires forall j :: 0 <= j < i ==> fs[j].title != title
    ensures FieldValue(fs, title) == Some(fs[i].value)
    decreases i
  {
    if i > 0 {
      FieldValueAt(fs[1..], i - 1, title);
    }
  }

  /**
   Read-back of the optional fields: "Agent" carries the agent rendering and
   "Agentless Host" the host, exactly when the alert has them.
   */
  lemma OptionalFieldsReadBack(a: Alert)
    ensures FieldValue(GenerateMsg(a).fields, AgentTitle)
         == (if a.agent.Some? then Some(AgentValue(a.agent.value)) else None)
    ensures FieldValue(GenerateMsg(a).fields, AgentlessTitle)
         == (if a.agentless.Some? then Some(a.agentless.value.host) else None)
  {
    var fs := GenerateMsg(a).fields;
    FieldOrder(a);
    if a.agent.Some? {
      FieldValueAt(fs, 0, AgentTitle);
    } else {
      assert forall i :: 0 <= i < |fs| ==> Titles(fs)[i] != AgentTitle;
    }
    if a.agentless.Some? {
      FieldValueAt(fs, |fs| - 3, AgentlessTitle);
    } else {
      assert forall i :: 0 <= i < |fs| ==> Titles(fs)[i] != AgentlessTitle;
    }
  }

  /**
   Read-back of the fixed fields: "Location" carries the location, and the
   rule id and the level can be parsed back out of "Rule ID", with the colour
   agreeing with the level read back.
   */
  lemma FixedFieldsReadBack(a: Alert)
    ensures FieldValue(GenerateMsg(a).fields, LocationTitle) == Some(a.location)
    ensures FieldValue(GenerateMsg(a).fields, RuleIdTitle).Some?
    ensures ParseRuleIdValue(FieldValue(GenerateMsg(a).fields, RuleIdTitle).value)
         == Some((a.rule.id, a.rule.level))
    ensures GenerateMsg(a).color == ColorFor(a.rule.level)
  {
    var fs := GenerateMsg(a).fields;
    var n := |fs|;
    FieldOrder(a);
    assert Titles(fs)[n - 2] == LocationTitle;
    assert forall j :: 0 <= j < n - 2 ==> Titles(fs)[j] != LocationTitle;
    FieldValueAt(fs, n - 2, LocationTitle);
    assert forall j :: 0 <= j < n - 1 ==> Titles(fs)[j] != RuleIdTitle;
    FieldValueAt(fs, n - 1, RuleIdTitle);
    RuleIdValueRoundTrip(a.rule.id, a.rule.level);
  }

  /** "N/A" appears exactly when the rule has no description or its description is itself "N/A". */
  lemma DescriptionPlaceholder(a: Alert)
    ensures GenerateMsg(a).description == NoDescription
        <==> a.rule.description.None? || a.rule.description.value == NoDescription
  {
  }

  /**
   Reads an Agent value back into the agent id and name: after the opening
   bracket, it splits at the first ')' and requires " - " to follow it.
   */
  function ParseAgentValue(v: string): Option<(string, string)> {
    if |v| == 0 || v[0] != '(' then None
    else
      var t := v[1..];
      match IndexOf(t, ')')
      case None => None
      case Some(k) =>
        var rest := t[k..];
        if HasPrefix(rest, ") - ") then Some((t[..k], rest[4..])) else None
  }

  /** When the agent id holds no ')', the Agent value gives back the agent id and name. */
  lemma AgentValueRoundTrip(a: Agent)
    requires !Contains(a.id, ')')
    ensures ParseAgentValue(AgentValue(a)) == Some((a.id, a.name))
  {
    var v := AgentValue(a);
    var t := v[1..];
    assert t == a.id + [')'] + (" - " + a.name);
    IndexOfAfter(a.id, ')', " - " + a.name);
    var rest := t[|a.id|..];
    assert rest == ") - " + a.name;
    assert t[..|a.id|] == a.id;
  }

  /** A level-10 alert without agent, agentless host or description. */
  lemma ExampleWithoutAgent()
    ensures var m := GenerateMsg(Alert(Rule("100001", 10, None), "server1", "1690000000.1", None, None, None));
      && m.color == Red
      && m.description == NoDescription
      && m.fields == [Field(LocationTitle, "server1"), Field(RuleIdTitle, "100001 _(Level 10)_")]
      && m.ts == "1690000000.1"
  {
    assert NatToString(1) == "1" && NatToString(0) == "0";
    assert NatToString(10) == "10";
    assert IntToString(10) == "10";
    assert RuleIdValue("100001", 10) == "100001 _(Level 10)_";
  }

  /** The same alert with an agent gains a leading Agent field. */
  lemma ExampleWithAgent()
    ensures GenerateMsg(Alert(Rule("100001", 10, None), "server1", "1690000000.1",
                              Some(Agent("001", "web01")), None, None)).fields[0]
         == Field(AgentTitle, "(001) - web01")
  {
  }
}
