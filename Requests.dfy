/** The request side of the two IP-alert agents that came before the rule builders: where the
    indicator of a request comes from (`get_ip_from_request`), and the `rule_translator` of
    main.py and of the legacy ManagerSnort. A request is the dictionary the upload route
    makes: its `content_type` and its `content`. */
module Requests {
  import opened Text
  import opened Py
  import Indicators

  /** `None` or the matched text, as `ip_matches` returns it. */
  function Found(m: Option<string>): Value
  {
    match m
    case None => Null
    case Some(s) => Str(s)
  }

  /** `get_ip_from_request(request)`: the `ip` field of a JSON body, the first indicator of a
      text body, None for anything else. `decoded` is what `json.loads` makes of the content
      when the content is a string; any other content raises TypeError in `json.loads` and in
      `re.search` alike. */
  function GetIpFromRequest(request: map<string, Value>, decoded: Decoded): Result<Value>
  {
    var content := Get(request, "content");
    if Get(request, "content_type") == Str("application/json") then
      if content.Str? then LoadsGet(decoded, "ip") else Err(TypeError)
    else if Get(request, "content_type") == Str("text/plain") then
      if content.Str? then Ok(Found(Indicators.Extract(content.s))) else Err(TypeError)
    else Ok(Null)
  }

  /** The pieces of the alert f-string around its two `{ip}` fields. */
  const AlertHead := "alert ip "
  const AlertMiddle := " any -> $HOME_NET any (msg: \"IP Alert Incoming From IP: "
  const AlertTail := "\";   classtype:tcp-connection; sid:28154103; rev:1; " + AlertReference
  const AlertReference := "reference:url,https://misp.gsma.com/events/view/19270;)"

  /** The alert rule for traffic from `ip`, naming it twice. */
  function AlertLine(ip: string): string
  {
    AlertHead + (ip + (AlertMiddle + (ip + AlertTail)))
  }

  /** main.py's JSON rule, `f"block {ip}"`. */
  function BlockLine(ip: Value): string
  {
    "block " + ToStr(ip)
  }

  /** main.py's `rule_translator`: a JSON body gives a block rule for its `ip` field (`block
      None` when the field is missing), a text body an alert rule for its first indicator or
      None; any other content type leaves `rule` unassigned. */
  function MainTranslate(data: map<string, Value>, decoded: Decoded): Result<Option<string>>
  {
    var content := Get(data, "content");
    if Get(data, "content_type") == Str("application/json") then
      if !content.Str? then Err(TypeError)
      else match LoadsGet(decoded, "ip")
        case Err(e) => Err(e)
        case Ok(ip) => Ok(Some(BlockLine(ip)))
    else if Get(data, "content_type") == Str("text/plain") then
      if !content.Str? then Err(TypeError)
      else match Indicators.Extract(content.s)
        case None => Ok(None)
        case Some(ip) => Ok(Some(AlertLine(ip)))
    else Err(UnboundLocalError)
  }

  /** The legacy `rule_translator` as written: `ip := get_ip_from_request(data) is None` binds
      `ip` to a bool, so a found indicator yields the alert rule for `False`. */
  function LegacyTranslate(data: map<string, Value>, decoded: Decoded): Result<Option<string>>
  {
    match GetIpFromRequest(data, decoded)
    case Err(e) => Err(e)
    case Ok(ip) => if ip == Null then Ok(None) else Ok(Some(AlertLine(ToStr(Bool(false)))))
  }

  /** The legacy `rule_translator` with the parentheses the managers ManagerSnort puts around
      its walrus test: `(ip := get_ip_from_request(data)) is None`. */
  function LegacyTranslateFixed(data: map<string, Value>, decoded: Decoded): Result<Option<string>>
  {
    match GetIpFromRequest(data, decoded)
    case Err(e) => Err(e)
    case Ok(ip) => if ip == Null then Ok(None) else Ok(Some(AlertLine(ToStr(ip))))
  }

  // ---------------------------------------------------------------------
  // Properties

  /** A text body never raises; it yields None exactly when no indicator occurs in it, and
      otherwise a non-empty piece of the body. */
  lemma TextRequest(request: map<string, Value>, decoded: Decoded, c: string)
    requires Get(request, "content_type") == Str("text/plain") && Get(request, "content") == Str(c)
    ensures GetIpFromRequest(request, decoded).Ok?
    ensures GetIpFromRequest(request, decoded) == Ok(Null) <==> Indicators.Extract(c).None?
    ensures GetIpFromRequest(request, decoded) != Ok(Null) ==>
              var ip := GetIpFromRequest(request, decoded).value;
              ip.Str? && ip.s != "" && Contains(c, ip.s)
  {
    if Indicators.Extract(c).Some? {
      Indicators.ExtractOccurs(c);
    }
  }

  /** Only JSON and text bodies can raise, and only as `json.loads`, `.get` and `re.search`
      raise; any other content type yields None. */
  lemma RequestErrors(request: map<string, Value>, decoded: Decoded)
    ensures GetIpFromRequest(request, decoded).Err? ==>
              GetIpFromRequest(request, decoded).error in {TypeError, JsonDecodeError, AttributeError}
    ensures Get(request, "content_type") !in {Str("application/json"), Str("text/plain")} ==>
              GetIpFromRequest(request, decoded) == Ok(Null)
  {
  }

  /** A JSON body raises exactly when it is not a string holding a JSON object. */
  lemma JsonRequest(request: map<string, Value>, decoded: Decoded)
    requires Get(request, "content_type") == Str("application/json")
    ensures GetIpFromRequest(request, decoded).Ok? <==> Get(request, "content").Str? && decoded.Object?
    ensures GetIpFromRequest(request, decoded).Ok? ==> GetIpFromRequest(request, decoded).value == Get(decoded.fields, "ip")
  {
  }

  /** Different addresses give different alert rules. */
  lemma AlertLineInjective(a: string, b: string)
    requires AlertLine(a) == AlertLine(b)
    ensures a == b
  {
    assert |a| == |b|;
    ConcatCancel(AlertHead, a + (AlertMiddle + (a + AlertTail)), AlertHead, b + (AlertMiddle + (b + AlertTail)));
    ConcatCancel(a, AlertMiddle + (a + AlertTail), b, AlertMiddle + (b + AlertTail));
  }

  /** main.py inlines `get_ip_from_request`: on a JSON body its rule is the block rule for
      what that function finds. */
  lemma MainJsonAgrees(data: map<string, Value>, decoded: Decoded)
    requires Get(data, "content_type") == Str("application/json")
    ensures GetIpFromRequest(data, decoded).Err? ==> MainTranslate(data, decoded) == Err(GetIpFromRequest(data, decoded).error)
    ensures GetIpFromRequest(data, decoded).Ok? ==> MainTranslate(data, decoded) == Ok(Some(BlockLine(GetIpFromRequest(data, decoded).value)))
  {
  }

  /** On a text body main.py's rule is the alert rule for the indicator `get_ip_from_request`
      finds, and None exactly when it finds none. */
  lemma MainTextAgrees(data: map<string, Value>, decoded: Decoded)
    requires Get(data, "content_type") == Str("text/plain")
    ensures MainTranslate(data, decoded) == LegacyTranslateFixed(data, decoded)
  {
  }

  /** Any other content type reaches `return rule` with `rule` unassigned. */
  lemma MainOtherUnbound(data: map<string, Value>, decoded: Decoded)
    requires Get(data, "content_type") != Str("application/json") && Get(data, "content_type") != Str("text/plain")
    ensures MainTranslate(data, decoded) == Err(UnboundLocalError)
  {
  }

  /** The legacy translator ignores the address it finds: every rule it makes is the alert for
      `False`, and it makes one exactly when the fixed translator does. */
  lemma LegacyIgnoresAddress(data: map<string, Value>, decoded: Decoded)
    ensures LegacyTranslate(data, decoded).Ok? <==> LegacyTranslateFixed(data, decoded).Ok?
    ensures LegacyTranslate(data, decoded) == Ok(None) <==> LegacyTranslateFixed(data, decoded) == Ok(None)
    ensures LegacyTranslate(data, decoded).Ok? && LegacyTranslate(data, decoded).value.Some? ==>
              LegacyTranslate(data, decoded).value.value == AlertLine("False")
  {
  }

  /** A text body naming any address but `False` shows the discrepancy: the legacy rule is not
      the rule for the address found, while the fixed one is. */
  lemma LegacyWrongAddress(data: map<string, Value>, decoded: Decoded, c: string)
    requires Get(data, "content_type") == Str("text/plain") && Get(data, "content") == Str(c)
    requires Indicators.Extract(c).Some? && Indicators.Extract(c).value != "False"
    ensures LegacyTranslate(data, decoded).Ok? && LegacyTranslate(data, decoded).value.Some?
    ensures LegacyTranslate(data, decoded).value.value != AlertLine(Indicators.Extract(c).value)
    ensures LegacyTranslateFixed(data, decoded) == Ok(Some(AlertLine(Indicators.Extract(c).value)))
  {
    var ip := Indicators.Extract(c).value;
    assert GetIpFromRequest(data, decoded) == Ok(Str(ip));
    NotFalse(ip);
  }

  lemma NotFalse(ip: string)
    requires ip != "False"
    ensures AlertLine(ToStr(Bool(false))) != AlertLine(ip)
  {
    if AlertLine(ToStr(Bool(false))) == AlertLine(ip) {
      AlertLineInjective(ToStr(Bool(false)), ip);
    }
  }
}
