/** The fixed-template Snort rules of the managers' `ManagerSnort`: five builders,
    each growing a rule string piece by piece, and the command table of
    `rule_translator` that picks one of them for a payload. */
module Rules {
  import opened Text
  import opened Py
  import Hex

  /** The five `building_rule_*` builders. */
  datatype Builder = Block | BlockIcmp | AlertIcmp | BlockDomain | Alert

  /** Everything a builder writes before the option list's "(": action, protocol, source,
      direction, destination, each followed by a space. */
  function Head(b: Builder, target: Value): string
  {
    match b
    case Block => "block " + "http " + (ToStr(target) + " ") + "any -> $HOME_NET any "
    case BlockIcmp => "block " + "icmp " + (ToStr(target) + " ") + "any -> $HOME_NET any "
    case AlertIcmp => "alert " + "icmp " + (ToStr(target) + " ") + "any -> $HOME_NET any "
    case BlockDomain => "block " + "ssl " + "any " + "any " + "-> " + "$HOME_NET 443 "
    case Alert => "alert " + "ip " + (ToStr(target) + " ") + "any -> $HOME_NET any "
  }

  /** The message a builder uses when it is given none. */
  function DefaultMsg(b: Builder, target: Value): string
  {
    match b
    case Block => "Block traffic From IP " + ToStr(target)
    case BlockIcmp => "Block icmp From IP " + ToStr(target)
    case AlertIcmp => "Alert icmp From IP " + ToStr(target)
    case BlockDomain => "Block domain " + ToStr(target)
    case Alert => "IP Alert Incoming From IP " + ToStr(target)
  }

  /** `if msg:` picks the caller's message, otherwise the default one. */
  function MsgText(b: Builder, target: Value, msg: Value): string
  {
    if Truthy(msg) then ToStr(msg) else DefaultMsg(b, target)
  }

  /** The msg option for a message text. */
  function MsgOption(text: string): string
  {
    "msg:\"" + text + "\"; "
  }

  /** The options every alert rule carries after its message. */
  const AlertOptions := "classtype:tcp-connection; " + "sid:28154103; " + "rev:1; " + "reference:url,https://misp.gsma.com/events/view/19270; "

  /** The domain rule's content option for a hex-encoded domain. */
  function ContentOption(hex: string): string
  {
    "content:\"|" + hex + "|\"  ;"
  }

  /** What a builder writes after the msg option. */
  function Tail(b: Builder, target: Value): string
  {
    match b
    case BlockDomain => if target.Str? then ContentOption(Hex.ToHex(target.s)) else ""
    case Alert => AlertOptions
    case _ => ""
  }

  /** The rule a builder returns, or the error it raises: `to_hex` iterates its argument, so the
      domain builder raises TypeError on anything but a string. */
  function Build(b: Builder, target: Value, msg: Value): Result<string>
  {
    if b == BlockDomain && !target.Str? then Err(TypeError)
    else Ok(Head(b, target) + "(" + MsgOption(MsgText(b, target, msg)) + Tail(b, target) + ")")
  }

  // ---------------------------------------------------------------------
  // The builders, as written: a local rule grown by successive appends

  method BuildingRuleBlock(target: Value, msg: Value) returns (rule: string)
    ensures Build(Block, target, msg) == Ok(rule)
  {
    rule := "";
    rule := rule + "block ";
    assert rule == "block ";
    rule := rule + "http ";
    rule := rule + (ToStr(target) + " ");
    rule := rule + "any -> $HOME_NET any ";
    rule := rule + "(";
    assert rule == Head(Block, target) + "(";
    if Truthy(msg) {
      rule := rule + ("msg:\"" + ToStr(msg) + "\"; ");
    } else {
      rule := rule + ("msg:\"" + ("Block traffic From IP " + ToStr(target)) + "\"; ");
    }
    assert rule == Head(Block, target) + "(" + MsgOption(MsgText(Block, target, msg));
    assert rule + "" == rule;
    rule := rule + ")";
  }

  method BuildingRuleBlockIcmp(target: Value, msg: Value) returns (rule: string)
    ensures Build(BlockIcmp, target, msg) == Ok(rule)
  {
    rule := "";
    rule := rule + "block ";
    assert rule == "block ";
    rule := rule + "icmp ";
    rule := rule + (ToStr(target) + " ");
    rule := rule + "any -> $HOME_NET any ";
    rule := rule + "(";
    assert rule == Head(BlockIcmp, target) + "(";
    if Truthy(msg) {
      rule := rule + ("msg:\"" + ToStr(msg) + "\"; ");
    } else {
      rule := rule + ("msg:\"" + ("Block icmp From IP " + ToStr(target)) + "\"; ");
    }
    assert rule == Head(BlockIcmp, target) + "(" + MsgOption(MsgText(BlockIcmp, target, msg));
    assert rule + "" == rule;
    rule := rule + ")";
  }

  method BuildingRuleAlertIcmp(target: Value, msg: Value) returns (rule: string)
    ensures Build(AlertIcmp, target, msg) == Ok(rule)
  {
    rule := "";
    rule := rule + "alert ";
    assert rule == "alert ";
    rule := rule + "icmp ";
    rule := rule + (ToStr(target) + " ");
    rule := rule + "any -> $HOME_NET any ";
    rule := rule + "(";
    assert rule == Head(AlertIcmp, target) + "(";
    if Truthy(msg) {
      rule := rule + ("msg:\"" + ToStr(msg) + "\"; ");
    } else {
      rule := rule + ("msg:\"" + ("Alert icmp From IP " + ToStr(target)) + "\"; ");
    }
    assert rule == Head(AlertIcmp, target) + "(" + MsgOption(MsgText(AlertIcmp, target, msg));
    assert rule + "" == rule;
    rule := rule + ")";
  }

  /** The domain builder also raises TypeError, from inside `to_hex`, for a domain that is not a string. */
  method BuildingRuleBlockDomain(domain: Value, msg: Value) returns (r: Result<string>)
    ensures Build(BlockDomain, domain, msg) == r
  {
    var rule := "";
    rule := rule + "block ";
    assert rule == "block ";
    rule := rule + "ssl ";
    rule := rule + "any ";
    rule := rule + "any ";
    rule := rule + "-> ";
    rule := rule + "$HOME_NET 443 ";
    rule := rule + "(";
    assert rule == Head(BlockDomain, domain) + "(";
    if Truthy(msg) {
      rule := rule + ("msg:\"" + ToStr(msg) + "\"; ");
    } else {
      rule := rule + ("msg:\"" + ("Block domain " + ToStr(domain)) + "\"; ");
    }
    assert rule == Head(BlockDomain, domain) + "(" + MsgOption(MsgText(BlockDomain, domain, msg));
    if !domain.Str? {
      return Err(TypeError);
    }
    rule := rule + ("content:\"|" + Hex.ToHex(domain.s) + "|\"  ;");
    rule := rule + ")";
    r := Ok(rule);
  }

  method BuildingRuleAlert(target: Value, msg: Value) returns (rule: string)
    ensures Build(Alert, target, msg) == Ok(rule)
  {
    rule := "";
    rule := rule + "alert ";
    assert rule == "alert ";
    rule := rule + "ip ";
    rule := rule + (ToStr(target) + " ");
    rule := rule + "any -> $HOME_NET any ";
    rule := rule + "(";
    assert rule == Head(Alert, target) + "(";
    if Truthy(msg) {
      rule := rule + ("msg:\"" + ToStr(msg) + "\"; ");
    } else {
      rule := rule + ("msg:\"" + ("IP Alert Incoming From IP " + ToStr(target)) + "\"; ");
    }
    assert rule == Head(Alert, target) + "(" + MsgOption(MsgText(Alert, target, msg));
    ghost var withMsg := rule;
    rule := rule + "classtype:tcp-connection; ";
    rule := rule + "sid:28154103; ";
    rule := rule + "rev:1; ";
    rule := rule + "reference:url,https://misp.gsma.com/events/view/19270; ";
    Assoc4(withMsg, "classtype:tcp-connection; ", "sid:28154103; ", "rev:1; ", "reference:url,https://misp.gsma.com/events/view/19270; ");
    rule := rule + ")";
  }

  lemma Assoc4(p: string, a: string, b: string, c: string, d: string)
    ensures p + a + b + c + d == p + (a + b + c + d)
  {
  }

  // ---------------------------------------------------------------------
  // The command table

  /** The builder `rule_translator` looks up for a command: only four commands have an entry. */
  function Command(command: Value): Option<Builder>
  {
    match command
    case Str(c) =>
      if c == "block_ip" then Some(Block)
      else if c == "block_domain" then Some(BlockDomain)
      else if c == "alert_ip" then Some(Alert)
      else if c == "block_icmp" then Some(BlockIcmp)
      else None
    case _ => None
  }

  /** `rule_translator(data)`: the builder chosen by `data["command"]` applied to `data.get("target")`
      with no message; None for any other command. */
  function RuleTranslator(data: map<string, Value>): Result<Option<string>>
  {
    match Command(Get(data, "command"))
    case None => Ok(None)
    case Some(b) =>
      match Build(b, Get(data, "target"), Null)
      case Ok(rule) => Ok(Some(rule))
      case Err(e) => Err(e)
  }

  // ---------------------------------------------------------------------
  // Reading a rule back

  /** The three fields of a fixed-template rule. */
  datatype Fields = Fields(head: string, msg: string, tail: string)

  /** Reads a rule back: the header is everything before the first '(', the message is the msg
      option's text up to its closing quote, the tail is what follows that option up to the final ')'. */
  function Parse(r: string): Option<Fields>
  {
    if '(' !in r then None
    else
      var i := IndexOf(r, '(');
      match ParseOptions(r[i + 1..])
      case None => None
      case Some((text, tail)) => Some(Fields(r[..i], text, tail))
  }

  /** Reads `msg:"<text>"; <tail>)` into its text and tail. */
  function ParseOptions(body: string): Option<(string, string)>
  {
    if !StartsWith(body, "msg:\"") || '"' !in body[5..] then None
    else
      var rest := body[5..];
      var j := IndexOf(rest, '"');
      var after := rest[j + 1..];
      if |after| < 3 || after[..2] != "; " || after[|after| - 1] != ')' then None
      else Some((rest[..j], after[2..|after| - 1]))
  }

  /** Any rule of the form head(msg:"text"; tail) reads back into its fields, provided the head
      has no '(' and the text no '"'. */
  lemma ParseFields(head: string, text: string, tail: string)
    requires '(' !in head && '"' !in text
    ensures Parse(head + "(" + MsgOption(text) + tail + ")") == Some(Fields(head, text, tail))
  {
    var body := MsgOption(text) + tail + ")";
    var r := head + "(" + MsgOption(text) + tail + ")";
    assert r == head + ['('] + body;
    IndexOfAfter(head, '(', body);
    assert r[..|head|] == head;
    assert r[|head| + 1..] == body;
    ParseOptionsOf(text, tail);
  }

  lemma ParseOptionsOf(text: string, tail: string)
    requires '"' !in text
    ensures ParseOptions(MsgOption(text) + tail + ")") == Some((text, tail))
  {
    var after := "; " + tail + ")";
    var rest := text + ['"'] + after;
    var body := MsgOption(text) + tail + ")";
    MsgOptionSplit(text, tail);
    assert body[..5] == "msg:\"";
    assert body[5..] == rest;
    IndexOfAfter(text, '"', after);
    SplitAround(text, '"', after);
    AfterOptions(tail);
  }

  lemma MsgOptionSplit(text: string, tail: string)
    ensures MsgOption(text) + tail + ")" == "msg:\"" + (text + ['"'] + ("; " + tail + ")"))
  {
    assert "\"; " == ['"'] + "; ";
  }

  lemma SplitAround(a: string, c: char, b: string)
    ensures (a + [c] + b)[..|a|] == a && (a + [c] + b)[|a| + 1..] == b
  {
  }

  lemma AfterOptions(tail: string)
    ensures var after := "; " + tail + ")";
      |after| >= 3 && after[..2] == "; " && after[|after| - 1] == ')' && after[2..|after| - 1] == tail
  {
    var after := "; " + tail + ")";
    assert after[..2] == "; ";
    assert after[2..|after| - 1] == tail;
  }

  /** Every built rule reads back as its header, its message text and what follows. */
  lemma ParseBuild(b: Builder, target: Value, msg: Value)
    requires '(' !in Head(b, target) && '"' !in MsgText(b, target, msg)
    requires b == BlockDomain ==> target.Str?
    ensures Build(b, target, msg).Ok?
    ensures Parse(Build(b, target, msg).value) == Some(Fields(Head(b, target), MsgText(b, target, msg), Tail(b, target)))
  {
    ParseFields(Head(b, target), MsgText(b, target, msg), Tail(b, target));
  }

  /** The message changes only the msg field: two rules of one builder and target that read back
      have the same header and the same trailing options, and carry their own texts. */
  lemma MsgOnlyField(b: Builder, target: Value, m1: Value, m2: Value)
    requires '(' !in Head(b, target) && '"' !in MsgText(b, target, m1) && '"' !in MsgText(b, target, m2)
    requires b == BlockDomain ==> target.Str?
    ensures Build(b, target, m1).Ok? && Build(b, target, m2).Ok?
    ensures Parse(Build(b, target, m1).value).Some? && Parse(Build(b, target, m2).value).Some?
    ensures Parse(Build(b, target, m1).value).value.head == Parse(Build(b, target, m2).value).value.head
    ensures Parse(Build(b, target, m1).value).value.tail == Parse(Build(b, target, m2).value).value.tail
    ensures Truthy(m1) ==> Parse(Build(b, target, m1).value).value.msg == ToStr(m1)
    ensures !Truthy(m1) ==> Parse(Build(b, target, m1).value).value.msg == DefaultMsg(b, target)
  {
    ParseBuild(b, target, m1);
    ParseBuild(b, target, m2);
  }

  /** The domain rule starts with its fixed header and ends with the content option holding the
      domain in hex. */
  lemma DomainShape(domain: string, msg: Value)
    ensures Build(BlockDomain, Str(domain), msg).Ok?
    ensures StartsWith(Build(BlockDomain, Str(domain), msg).value, Head(BlockDomain, Str(domain)) + "(")
    ensures EndsWith(Build(BlockDomain, Str(domain), msg).value, ContentOption(Hex.ToHex(domain)) + ")")
  {
    var start := Head(BlockDomain, Str(domain)) + "(";
    var mid := MsgOption(MsgText(BlockDomain, Str(domain), msg));
    var end := ContentOption(Hex.ToHex(domain)) + ")";
    assert Build(BlockDomain, Str(domain), msg).value == start + mid + end;
    SplitAround3(start, mid, end);
  }

  lemma SplitAround3(a: string, b: string, c: string)
    ensures (a + b + c)[..|a|] == a && (a + b + c)[|a + b + c| - |c|..] == c
  {
  }

  /** The domain a domain rule blocks, read back from its content option. */
  function DomainOf(r: string): Option<string>
  {
    match Parse(r)
    case None => None
    case Some(f) =>
      if |f.tail| >= 15 && f.tail[..10] == "content:\"|" && f.tail[|f.tail| - 5..] == "|\"  ;"
      then Hex.FromHex(f.tail[10..|f.tail| - 5])
      else None
  }

  /** A domain rule names its domain: reading the content option back gives the domain,
      whatever the message (as long as the message has no '"'). */
  lemma DomainRoundTrip(domain: string, msg: Value)
    requires '"' !in MsgText(BlockDomain, Str(domain), msg)
    ensures Build(BlockDomain, Str(domain), msg).Ok?
    ensures DomainOf(Build(BlockDomain, Str(domain), msg).value) == Some(domain)
  {
    DomainHeadOpen();
    ParseBuild(BlockDomain, Str(domain), msg);
    var hex := Hex.ToHex(domain);
    ContentSlices(hex);
    Hex.HexRoundTrip(domain);
  }

  lemma DomainHeadOpen()
    ensures '(' !in Head(BlockDomain, Null)
  {
    assert '(' !in "block " + "ssl " + "any ";
    assert '(' !in "any " + "-> " + "$HOME_NET 443 ";
  }

  lemma ContentSlices(hex: string)
    ensures var t := ContentOption(hex);
      |t| >= 15 && t[..10] == "content:\"|" && t[|t| - 5..] == "|\"  ;" && t[10..|t| - 5] == hex
  {
    var t := ContentOption(hex);
    assert t[..10] == "content:\"|";
    assert t[|t| - 5..] == "|\"  ;";
    assert t[10..|t| - 5] == hex;
  }

  /** Only a domain string can be blocked: any other target raises TypeError. */
  lemma DomainNeedsString(target: Value, msg: Value)
    ensures Build(BlockDomain, target, msg).Err? <==> !target.Str?
    ensures !target.Str? ==> Build(BlockDomain, target, msg) == Err(TypeError)
  {
  }

  /** An alert rule carries the fixed classification, id, revision and reference whatever its message. */
  lemma AlertCarriesOptions(target: Value, msg: Value)
    ensures Build(Alert, target, msg).Ok? && Contains(Build(Alert, target, msg).value, AlertOptions)
  {
    ContainsSelf(Head(Alert, target) + "(" + MsgOption(MsgText(Alert, target, msg)), AlertOptions, ")");
  }

  /** `rule_translator` yields no rule exactly when the command has no table entry (`alert_icmp`
      among them). Otherwise it raises only for a domain that is not a string, and its rule is the
      chosen builder's rule with that builder's default message: no message is ever passed on. */
  lemma TranslatorTable(data: map<string, Value>)
    ensures RuleTranslator(data) == Ok(None) <==>
      Get(data, "command") !in [Str("block_ip"), Str("block_domain"), Str("alert_ip"), Str("block_icmp")]
    ensures Get(data, "command") == Str("alert_icmp") ==> RuleTranslator(data) == Ok(None)
    ensures RuleTranslator(data).Err? <==>
      Get(data, "command") == Str("block_domain") && !Get(data, "target").Str?
    ensures Command(Get(data, "command")).Some? && RuleTranslator(data).Ok? ==>
      var b := Command(Get(data, "command")).value;
      var t := Get(data, "target");
      RuleTranslator(data) == Ok(Some(Build(b, t, Str(DefaultMsg(b, t))).value))
  {
    var c := Get(data, "command");
    if c.Str? && c.s == "alert_icmp" {
      assert c.s != "block_ip" && c.s != "block_domain" && c.s != "alert_ip" && c.s != "block_icmp";
    }
  }

  /** A `block_ip` target holding a line break, as a JSON payload may carry, gives a rule that
      spans lines: the break sits inside the rule's header. */
  lemma LineBreakTarget(data: map<string, Value>, target: string, j: nat)
    requires Get(data, "command") == Str("block_ip") && Get(data, "target") == Str(target)
    requires j < |target| && (target[j] == '\n' || target[j] == '\r')
    ensures RuleTranslator(data).Ok? && RuleTranslator(data).value.Some?
    ensures Spanning(RuleTranslator(data).value.value, 11 + j)
  {
    assert Command(Str("block_ip")) == Some(Block);
    BlockTargetAt(target, j);
  }

  /** The block rule carries its target from position 11 on, inside the header. */
  lemma BlockTargetAt(target: string, j: nat)
    requires j < |target|
    ensures Build(Block, Str(target), Null).Ok?
    ensures var r := Build(Block, Str(target), Null).value; 12 + j < |r| && r[11 + j] == target[j]
  {
    var h := Head(Block, Str(target));
    var pre := "block " + "http ";
    assert h == pre + (target + " ") + "any -> $HOME_NET any ";
    assert |pre| == 11;
    assert h[11 + j] == target[j];
    assert Build(Block, Str(target), Null).value[11 + j] == h[11 + j];
  }
}
