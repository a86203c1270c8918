/** `build_snort_rule`: the general Snort rule assembler of the managers' `ManagerSnort`.
    It collects header words into `parts` and rule options into `opts`, raising ValueError
    when a traditional rule lacks an address field, and lays the result out as the header,
    " (", one indented option per line and a closing ")". */
module SnortRule {
  import opened Text
  import opened Py

  /** A numeric option as `opt(name, val)` receives it: a single value (None among them) or a list. */
  datatype OptArg = Scalar(v: Value) | List(vs: seq<Value>)

  /** The header arguments of `build_snort_rule`. */
  datatype HeaderArgs = HeaderArgs(
    action: Value, ruleType: Value, protocol: Value, srcIp: Value, srcPort: Value,
    direction: Value, dstIp: Value, dstPort: Value)

  /** The option arguments `build_snort_rule` reads. A list argument left at None and an empty list are both
      the empty sequence; the dictionaries `metadata` (in insertion order) and `file_meta` keep their entries. */
  datatype OptionArgs = OptionArgs(
    msg: Value, reference: seq<(Value, Value)>, gid: OptArg, sid: OptArg, rev: OptArg,
    classtype: Value, priority: OptArg, metadata: seq<(Value, Value)>, serviceOpt: seq<Value>,
    rem: Value, fileMeta: map<string, Value>, content: seq<map<string, Value>>,
    pcre: seq<Value>, regex: seq<Value>, flow: seq<Value>)

  datatype RuleArgs = RuleArgs(head: HeaderArgs, body: OptionArgs)

  /** The actions that make it into the header. */
  const Actions: seq<Value> := [Str("alert"), Str("drop"), Str("log"), Str("pass"), Str("block"), Str("react"), Str("reject"), Str("rewrite")]

  /** Rule types whose header is just the action and the type. */
  const KeywordTypes: seq<Value> := [Str("service"), Str("file"), Str("file_id")]

  const SourceRequired := "protocol, src_ip, src_port required"
  const DestinationRequired := "dst_ip,dst_port required"

  // ---------------------------------------------------------------------
  // str.join over Python values

  /** The strings of a list whose every element is a str. */
  function AsStrings(vs: seq<Value>): (r: Option<seq<string>>)
    ensures r.Some? ==> |r.value| == |vs|
  {
    if vs == [] then Some([])
    else match (vs[0], AsStrings(vs[1..]))
      case (Str(s), Some(rest)) => Some([s] + rest)
      case _ => None
  }

  /** `sep.join(vs)`: TypeError as soon as an element is not a str. */
  function JoinStrs(vs: seq<Value>, sep: string): Result<string>
  {
    match AsStrings(vs)
    case None => Err(TypeError)
    case Some(ss) => Ok(Join(ss, sep))
  }

  // ---------------------------------------------------------------------
  // Header

  function Act(a: HeaderArgs): seq<Value>
  {
    if a.action in Actions then [a.action] else []
  }

  /** `direction or "->"`. */
  function Direction(a: HeaderArgs): Value
  {
    if Truthy(a.direction) then a.direction else Str("->")
  }

  /** The header words, or the ValueError raised for a missing address field. */
  function HeaderParts(a: HeaderArgs): Result<seq<Value>>
  {
    if a.ruleType in KeywordTypes then Ok(Act(a) + [a.ruleType])
    else if !Truthy(a.protocol) || !Truthy(a.srcIp) || !Truthy(a.srcPort) then Err(ValueError(SourceRequired))
    else if !Truthy(a.dstIp) || !Truthy(a.dstPort) then Err(ValueError(DestinationRequired))
    else Ok(Act(a) + [a.protocol, a.srcIp, a.srcPort] + [Direction(a)] + [a.dstIp, a.dstPort])
  }

  /** `header = " ".join(parts)`. */
  function Header(a: HeaderArgs): Result<string>
  {
    match HeaderParts(a)
    case Err(e) => Err(e)
    case Ok(parts) => JoinStrs(parts, " ")
  }

  // ---------------------------------------------------------------------
  // Options

  /** `f"{name}:{text};"`. */
  function Plain(name: string, text: string): string
  {
    name + ":" + text + ";"
  }

  /** `f"{name}:'{v}';"`. */
  function Quoted(name: string, v: Value): string
  {
    name + ":'" + ToStr(v) + "';"
  }

  /** What the nested `opt(name, val)` appends: one option per list element, one for any other value but None. */
  function OptStrings(name: string, arg: OptArg): seq<string>
  {
    match arg
    case List(vs) => OptList(name, vs)
    case Scalar(v) => if v == Null then [] else [Plain(name, ToStr(v))]
  }

  function OptList(name: string, vs: seq<Value>): seq<string>
  {
    if vs == [] then [] else OptList(name, vs[..|vs| - 1]) + [Plain(name, ToStr(vs[|vs| - 1]))]
  }

  function MsgOpts(msg: Value): seq<string>
  {
    if Truthy(msg) then [Quoted("msg", msg)] else []
  }

  function RefOpts(refs: seq<(Value, Value)>): seq<string>
  {
    if refs == [] then []
    else
      var p := refs[|refs| - 1];
      RefOpts(refs[..|refs| - 1]) + [Plain("reference", ToStr(p.0) + "," + ToStr(p.1))]
  }

  function ClassOpts(classtype: Value): seq<string>
  {
    if Truthy(classtype) then [Plain("classtype", ToStr(classtype))] else []
  }

  /** `[f"{k} {v}" for k, v in metadata.items()]`. */
  function MetaPairs(md: seq<(Value, Value)>): (ps: seq<string>)
    ensures |ps| == |md|
  {
    if md == [] then [] else MetaPairs(md[..|md| - 1]) + [ToStr(md[|md| - 1].0) + " " + ToStr(md[|md| - 1].1)]
  }

  function MetadataOpts(md: seq<(Value, Value)>): seq<string>
  {
    if md == [] then [] else [Plain("metadata", Join(MetaPairs(md), ","))]
  }

  /** The service and flow options join their lists with ',', which raises TypeError on a non-string. */
  function JoinedOpts(name: string, vs: seq<Value>): Result<seq<string>>
  {
    if vs == [] then Ok([])
    else match JoinStrs(vs, ",")
      case Err(e) => Err(e)
      case Ok(s) => Ok([Plain(name, s)])
  }

  function RemOpts(rem: Value): seq<string>
  {
    if Truthy(rem) then [Quoted("rem", rem)] else []
  }

  const FileMetaKeys: seq<string> := ["category", "group", "version"]

  /** The optional `file_meta` entries that are present and truthy, each as `k 'v'`. */
  function MetaExtra(fm: map<string, Value>, keys: seq<string>): seq<string>
  {
    if keys == [] then []
    else
      var k := keys[|keys| - 1];
      MetaExtra(fm, keys[..|keys| - 1]) + (if Truthy(Get(fm, k)) then [k + " '" + ToStr(fm[k]) + "'"] else [])
  }

  /** The file_meta option: `type` and `id` are looked up with `[]`, so each raises KeyError when absent. */
  function FileMetaOpts(fm: map<string, Value>): Result<seq<string>>
  {
    if |fm| == 0 then Ok([])
    else if "type" !in fm then Err(KeyError("type"))
    else if "id" !in fm then Err(KeyError("id"))
    else Ok([Plain("file_meta", Join(["type " + ToStr(fm["type"]), "id " + ToStr(fm["id"])] + MetaExtra(fm, FileMetaKeys), ","))])
  }

  const ContentModifiers: seq<string> := ["fast_pattern", "nocase", "offset", "depth", "distance", "within", "width", "endian"]

  /** One modifier of a content match: a bare name for True, nothing for None, False (or 0, which
      equals False), `name v` for anything else. */
  function Modifier(m: string, v: Value): seq<string>
  {
    if v == Bool(true) then [m]
    else if v == Null || v == Bool(false) || v == Int(0) then []
    else [m + " " + ToStr(v)]
  }

  function Modifiers(c: map<string, Value>, ms: seq<string>): seq<string>
  {
    if ms == [] then [] else Modifiers(c, ms[..|ms| - 1]) + Modifier(ms[|ms| - 1], Get(c, ms[|ms| - 1]))
  }

  /** One content option: the quoted value followed by its modifiers among `ms`, joined by ','. */
  function ContentOpt(c: map<string, Value>, ms: seq<string>): string
    requires "value" in c
  {
    Join(["content:'" + ToStr(c["value"]) + "'"] + Modifiers(c, ms), ",") + ";"
  }

  /** Every content match has a value. */
  predicate HasValues(cs: seq<map<string, Value>>)
  {
    forall k :: 0 <= k < |cs| ==> "value" in cs[k]
  }

  function ContentList(cs: seq<map<string, Value>>, ms: seq<string>): seq<string>
    requires HasValues(cs)
  {
    if cs == [] then [] else ContentList(cs[..|cs| - 1], ms) + [ContentOpt(cs[|cs| - 1], ms)]
  }

  /** The content options in order. `c['value']` raises KeyError for the first match without one;
      which match that is makes no difference to the error. */
  function ContentOpts(cs: seq<map<string, Value>>): Result<seq<string>>
  {
    if HasValues(cs) then Ok(ContentList(cs, ContentModifiers)) else Err(KeyError("value"))
  }

  /** The pcre and regex options, one quoted option per pattern. */
  function PatternOpts(name: string, rs: seq<Value>): seq<string>
  {
    if rs == [] then [] else PatternOpts(name, rs[..|rs| - 1]) + [Quoted(name, rs[|rs| - 1])]
  }

  /** The options that cannot raise, in the order they are appended. */
  function GeneralOpts(a: OptionArgs): seq<string>
  {
    MsgOpts(a.msg) + RefOpts(a.reference) + OptStrings("gid", a.gid) + OptStrings("sid", a.sid)
    + OptStrings("rev", a.rev) + ClassOpts(a.classtype) + OptStrings("priority", a.priority)
    + MetadataOpts(a.metadata)
  }

  /** All options, or the first error raised while building them. */
  function Options(a: OptionArgs): Result<seq<string>>
  {
    match (JoinedOpts("service", a.serviceOpt), FileMetaOpts(a.fileMeta), ContentOpts(a.content), JoinedOpts("flow", a.flow))
    case (Err(e), _, _, _) => Err(e)
    case (Ok(_), Err(e), _, _) => Err(e)
    case (Ok(_), Ok(_), Err(e), _) => Err(e)
    case (Ok(_), Ok(_), Ok(_), Err(e)) => Err(e)
    case (Ok(s), Ok(f), Ok(c), Ok(fl)) =>
      Ok(GeneralOpts(a) + s + RemOpts(a.rem) + f + c + PatternOpts("pcre", a.pcre) + PatternOpts("regex", a.regex) + fl)
  }

  /** `f"{header} (\n    {body}\n)"` with the options joined by "\n    ". */
  function Layout(header: string, opts: seq<string>): string
  {
    header + " (\n    " + Join(opts, "\n    ") + "\n)"
  }

  /** What `build_snort_rule` returns or raises. */
  function Render(a: RuleArgs): Result<string>
  {
    match Header(a.head)
    case Err(e) => Err(e)
    case Ok(h) =>
      match Options(a.body)
      case Err(e) => Err(e)
      case Ok(opts) => Ok(Layout(h, opts))
  }

  // ---------------------------------------------------------------------
  // The imperative assembler

  /** The header: `parts` grows word by word, and a missing address field raises ValueError. */
  method BuildHeader(a: HeaderArgs) returns (r: Result<string>)
    ensures r == Header(a)
  {
    var parts: seq<Value> := [];
    if a.action in Actions {
      parts := parts + [a.action];
    }
    assert parts == Act(a);
    if a.ruleType in KeywordTypes {
      parts := parts + [a.ruleType];
    } else {
      var source := [a.protocol, a.srcIp, a.srcPort];
      for i := 0 to |source|
        invariant parts == Act(a) + source[..i]
        invariant forall k :: 0 <= k < i ==> Truthy(source[k])
      {
        if !Truthy(source[i]) {
          return Err(ValueError(SourceRequired));
        }
        parts := parts + [source[i]];
      }
      assert source[..3] == source;
      assert Truthy(source[0]) && Truthy(source[1]) && Truthy(source[2]);
      parts := parts + [if Truthy(a.direction) then a.direction else Str("->")];
      assert parts == Act(a) + [a.protocol, a.srcIp, a.srcPort] + [Direction(a)];
      var destination := [a.dstIp, a.dstPort];
      var withSource := parts;
      for i := 0 to |destination|
        invariant parts == withSource + destination[..i]
        invariant forall k :: 0 <= k < i ==> Truthy(destination[k])
      {
        if !Truthy(destination[i]) {
          return Err(ValueError(DestinationRequired));
        }
        parts := parts + [destination[i]];
      }
      assert destination[..2] == destination;
      assert parts == withSource + [a.dstIp, a.dstPort];
      assert Truthy(destination[0]) && Truthy(destination[1]);
    }
    r := JoinStrs(parts, " ");
  }

  /** The nested `opt(name, val)`: a list appends one option per element, any other value but None one option. */
  method AppendOpt(opts: seq<string>, name: string, val: OptArg) returns (out: seq<string>)
    ensures out == opts + OptStrings(name, val)
  {
    out := opts;
    match val
    case List(vs) =>
      for i := 0 to |vs|
        invariant out == opts + OptList(name, vs[..i])
      {
        assert vs[..i + 1][..i] == vs[..i];
        out := out + [Plain(name, ToStr(vs[i]))];
      }
      assert vs[..|vs|] == vs;
    case Scalar(v) =>
      if v != Null {
        out := out + [Plain(name, ToStr(v))];
      }
  }

  method AppendReferences(opts: seq<string>, refs: seq<(Value, Value)>) returns (out: seq<string>)
    ensures out == opts + RefOpts(refs)
  {
    out := opts;
    for i := 0 to |refs|
      invariant out == opts + RefOpts(refs[..i])
    {
      assert refs[..i + 1][..i] == refs[..i];
      var (s, r) := refs[i];
      out := out + [Plain("reference", ToStr(s) + "," + ToStr(r))];
    }
    assert refs[..|refs|] == refs;
  }

  method AppendPatterns(opts: seq<string>, name: string, rs: seq<Value>) returns (out: seq<string>)
    ensures out == opts + PatternOpts(name, rs)
  {
    out := opts;
    for i := 0 to |rs|
      invariant out == opts + PatternOpts(name, rs[..i])
    {
      assert rs[..i + 1][..i] == rs[..i];
      out := out + [Quoted(name, rs[i])];
    }
    assert rs[..|rs|] == rs;
  }

  /** The optional file_meta entries, each appended when it is set. */
  method AppendMetaExtra(parts: seq<string>, fm: map<string, Value>, keys: seq<string>) returns (out: seq<string>)
    ensures out == parts + MetaExtra(fm, keys)
  {
    out := parts;
    for i := 0 to |keys|
      invariant out == parts + MetaExtra(fm, keys[..i])
    {
      var k := keys[i];
      assert keys[..i + 1][..i] == keys[..i];
      if Truthy(Get(fm, k)) {
        out := out + [k + " '" + ToStr(fm[k]) + "'"];
      } else {
        assert out == out + [];
      }
    }
    assert keys[..|keys|] == keys;
  }

  /** The file_meta option: the two required entries, then each optional one that is set. */
  method BuildFileMeta(fm: map<string, Value>) returns (r: Result<seq<string>>)
    ensures r == FileMetaOpts(fm)
  {
    if |fm| == 0 {
      return Ok([]);
    }
    if "type" !in fm {
      return Err(KeyError("type"));
    }
    if "id" !in fm {
      return Err(KeyError("id"));
    }
    var parts := ["type " + ToStr(fm["type"]), "id " + ToStr(fm["id"])];
    parts := AppendMetaExtra(parts, fm, FileMetaKeys);
    r := Ok([Plain("file_meta", Join(parts, ","))]);
  }

  /** The modifiers of one content match, each appended when it is set. */
  method AppendModifiers(segs: seq<string>, c: map<string, Value>, ms: seq<string>) returns (out: seq<string>)
    ensures out == segs + Modifiers(c, ms)
  {
    out := segs;
    for i := 0 to |ms|
      invariant out == segs + Modifiers(c, ms[..i])
    {
      var m := ms[i];
      assert ms[..i + 1][..i] == ms[..i];
      var v := Get(c, m);
      if v == Bool(true) {
        out := out + [m];
      } else if v != Null && v != Bool(false) && v != Int(0) {
        out := out + [m + " " + ToStr(v)];
      } else {
        assert out == out + [];
      }
    }
    assert ms[..|ms|] == ms;
  }

  /** The segments of one content option: the quoted value, then every modifier that is set. */
  method ContentSegments(c: map<string, Value>) returns (segs: seq<string>)
    requires "value" in c
    ensures Join(segs, ",") + ";" == ContentOpt(c, ContentModifiers)
  {
    segs := ["content:'" + ToStr(c["value"]) + "'"];
    segs := AppendModifiers(segs, c, ContentModifiers);
  }

  /** The content options, in order, stopping at the first match without a value. */
  method AppendContent(opts: seq<string>, cs: seq<map<string, Value>>) returns (r: Result<seq<string>>)
    ensures r == Extend(opts, ContentOpts(cs))
  {
    var out := opts;
    for i := 0 to |cs|
      invariant HasValues(cs[..i]) && out == opts + ContentList(cs[..i], ContentModifiers)
    {
      var c := cs[i];
      if "value" !in c {
        assert !HasValues(cs) by {
          assert "value" !in cs[i];
        }
        return Err(KeyError("value"));
      }
      assert cs[..i + 1][..i] == cs[..i];
      ghost var p := cs[..i + 1];
      assert HasValues(p) by {
        forall k | 0 <= k < |p|
          ensures "value" in p[k]
        {
          if k < i {
            assert p[k] == cs[..i][k];
          }
        }
      }
      var segs := ContentSegments(c);
      out := out + [Join(segs, ",") + ";"];
    }
    assert cs[..|cs|] == cs;
    r := Ok(out);
  }

  /** The options that cannot raise: msg, reference, gid, sid, rev, classtype, priority, metadata. */
  method BuildGeneralOpts(a: OptionArgs) returns (opts: seq<string>)
    ensures opts == GeneralOpts(a)
  {
    opts := [];
    if Truthy(a.msg) {
      opts := opts + [Quoted("msg", a.msg)];
    }
    assert opts == MsgOpts(a.msg);
    opts := AppendReferences(opts, a.reference);
    opts := AppendOpt(opts, "gid", a.gid);
    opts := AppendOpt(opts, "sid", a.sid);
    opts := AppendOpt(opts, "rev", a.rev);
    ghost var before := opts;
    if Truthy(a.classtype) {
      opts := opts + [Plain("classtype", ToStr(a.classtype))];
    } else {
      assert opts == opts + [];
    }
    assert opts == before + ClassOpts(a.classtype);
    opts := AppendOpt(opts, "priority", a.priority);
    before := opts;
    if a.metadata != [] {
      opts := opts + [Plain("metadata", Join(MetaPairs(a.metadata), ","))];
    } else {
      assert opts == opts + [];
    }
    assert opts == before + MetadataOpts(a.metadata);
  }

  /** `opts` followed by what a section adds, or the error the section raises. */
  function Extend(opts: seq<string>, section: Result<seq<string>>): Result<seq<string>>
  {
    match section
    case Err(e) => Err(e)
    case Ok(more) => Ok(opts + more)
  }

  /** The service or flow option: the list joined by ',', when it is not empty. */
  method AppendJoined(opts: seq<string>, name: string, vs: seq<Value>) returns (r: Result<seq<string>>)
    ensures r == Extend(opts, JoinedOpts(name, vs))
  {
    if vs == [] {
      assert opts + [] == opts;
      return Ok(opts);
    }
    var joined := JoinStrs(vs, ",");
    if joined.Err? {
      return Err(joined.error);
    }
    r := Ok(opts + [Plain(name, joined.value)]);
  }

  /** All the options, appended in the order `build_snort_rule` appends them. */
  method BuildOptions(a: OptionArgs) returns (r: Result<seq<string>>)
    ensures r == Options(a)
  {
    var opts := BuildGeneralOpts(a);
    var service := AppendJoined(opts, "service", a.serviceOpt);
    if service.Err? {
      return Err(service.error);
    }
    opts := service.value;
    ghost var before := opts;
    if Truthy(a.rem) {
      opts := opts + [Quoted("rem", a.rem)];
    } else {
      assert opts == opts + [];
    }
    assert opts == before + RemOpts(a.rem);
    var fileMeta := BuildFileMeta(a.fileMeta);
    if fileMeta.Err? {
      return Err(fileMeta.error);
    }
    opts := opts + fileMeta.value;
    var content := AppendContent(opts, a.content);
    if content.Err? {
      return Err(content.error);
    }
    opts := content.value;
    opts := AppendPatterns(opts, "pcre", a.pcre);
    opts := AppendPatterns(opts, "regex", a.regex);
    r := AppendJoined(opts, "flow", a.flow);
  }

  /** `build_snort_rule`: the header, then the options one per indented line. */
  method BuildSnortRule(a: RuleArgs) returns (r: Result<string>)
    ensures r == Render(a)
  {
    var header := BuildHeader(a.head);
    if header.Err? {
      return Err(header.error);
    }
    var opts := BuildOptions(a.body);
    if opts.Err? {
      return Err(opts.error);
    }
    var body := Join(opts.value, "\n    ");
    r := Ok(header.value + " (\n    " + body + "\n)");
  }

  // ---------------------------------------------------------------------
  // Properties

  /** `str.join` succeeds exactly when every element is a str, and then joins their texts. */
  lemma {:induction false} AsStringsExact(vs: seq<Value>)
    ensures AsStrings(vs).Some? <==> forall k :: 0 <= k < |vs| ==> vs[k].Str?
    ensures AsStrings(vs).Some? ==> forall k :: 0 <= k < |vs| ==> AsStrings(vs).value[k] == vs[k].s
  {
    if vs != [] {
      AsStringsExact(vs[1..]);
      assert forall k :: 1 <= k < |vs| ==> vs[k] == vs[1..][k - 1];
    }
  }

  /** A header word as it can be read back: a non-empty string without spaces. */
  predicate Word(v: Value)
  {
    v.Str? && v.s != "" && ' ' !in v.s
  }

  /** The text of the action when it is one of the recognised actions. */
  function ActWords(a: HeaderArgs): seq<string>
  {
    if a.action in Actions && a.action.Str? then [a.action.s] else []
  }

  lemma ActionsAreWords(v: Value)
    requires v in Actions
    ensures Word(v)
  {
  }

  /** The header words read back from a join of header parts. */
  lemma JoinedWords(parts: seq<Value>, words: seq<string>)
    requires |parts| == |words| >= 1
    requires forall k :: 0 <= k < |parts| ==> Word(parts[k]) && parts[k].s == words[k]
    ensures JoinStrs(parts, " ").Ok? && Split(JoinStrs(parts, " ").value, ' ') == words
  {
    AsStringsExact(parts);
    assert AsStrings(parts).value == words;
    SplitJoin(words, ' ');
  }

  /** A traditional header read back by splitting on spaces: the action only when it is recognised,
      the three source fields, the direction or "->" when none is given, the two destination fields. */
  lemma HeaderFields(a: HeaderArgs)
    requires a.ruleType !in KeywordTypes
    requires Word(a.protocol) && Word(a.srcIp) && Word(a.srcPort) && Word(a.dstIp) && Word(a.dstPort)
    requires Truthy(a.direction) ==> Word(a.direction)
    ensures Header(a).Ok?
    ensures Split(Header(a).value, ' ') == ActWords(a) + [a.protocol.s, a.srcIp.s, a.srcPort.s,
      if Truthy(a.direction) then a.direction.s else "->", a.dstIp.s, a.dstPort.s]
  {
    if a.action in Actions {
      ActionsAreWords(a.action);
    }
    var parts := HeaderParts(a).value;
    var words := ActWords(a) + [a.protocol.s, a.srcIp.s, a.srcPort.s,
      if Truthy(a.direction) then a.direction.s else "->", a.dstIp.s, a.dstPort.s];
    assert |parts| == |words|;
    forall k | 0 <= k < |parts|
      ensures Word(parts[k]) && parts[k].s == words[k]
    {
      if |Act(a)| == 1 && k > 0 {
        assert parts[k] == parts[1..][k - 1];
      }
    }
    JoinedWords(parts, words);
  }

  /** A service, file or file_id rule needs no address field: its header is the same whatever they are. */
  lemma KeywordHeader(a: HeaderArgs, protocol: Value, srcIp: Value, srcPort: Value, direction: Value, dstIp: Value, dstPort: Value)
    requires a.ruleType in KeywordTypes
    ensures Header(a).Ok?
    ensures Header(a) == Header(a.(protocol := protocol, srcIp := srcIp, srcPort := srcPort,
      direction := direction, dstIp := dstIp, dstPort := dstPort))
  {
    if a.action in Actions {
      ActionsAreWords(a.action);
    }
    AsStringsExact(Act(a) + [a.ruleType]);
  }

  /** An action outside the recognised eight is dropped, exactly as if none were given. */
  lemma UnknownActionDropped(a: RuleArgs)
    requires a.head.action !in Actions
    ensures Render(a) == Render(a.(head := a.head.(action := Null)))
  {
    var h := a.head.(action := Null);
    assert Null !in Actions;
    assert Act(h) == [];
    assert Act(a.head) == [];
    assert HeaderParts(a.head) == HeaderParts(h);
  }

  /** A missing direction renders as "->". */
  lemma DirectionDefault(a: RuleArgs)
    requires !Truthy(a.head.direction)
    ensures Render(a) == Render(a.(head := a.head.(direction := Str("->"))))
  {
    var h := a.head.(direction := Str("->"));
    assert Direction(a.head) == Direction(h);
    assert HeaderParts(a.head) == HeaderParts(h);
  }

  /** Option lists give one option per element, in order. */
  lemma {:induction false} OptListShape(name: string, vs: seq<Value>)
    ensures |OptList(name, vs)| == |vs|
    ensures forall k :: 0 <= k < |vs| ==> OptList(name, vs)[k] == Plain(name, ToStr(vs[k]))
  {
    if vs != [] {
      var init := vs[..|vs| - 1];
      OptListShape(name, init);
      assert OptList(name, vs) == OptList(name, init) + [Plain(name, ToStr(vs[|vs| - 1]))];
    }
  }

  lemma {:induction false} RefShape(refs: seq<(Value, Value)>)
    ensures |RefOpts(refs)| == |refs|
    ensures forall k :: 0 <= k < |refs| ==> RefOpts(refs)[k] == Plain("reference", ToStr(refs[k].0) + "," + ToStr(refs[k].1))
  {
    if refs != [] {
      var init := refs[..|refs| - 1];
      RefShape(init);
      var p := refs[|refs| - 1];
      assert RefOpts(refs) == RefOpts(init) + [Plain("reference", ToStr(p.0) + "," + ToStr(p.1))];
    }
  }

  lemma {:induction false} PatternShape(name: string, rs: seq<Value>)
    ensures |PatternOpts(name, rs)| == |rs|
    ensures forall k :: 0 <= k < |rs| ==> PatternOpts(name, rs)[k] == Quoted(name, rs[k])
  {
    if rs != [] {
      var init := rs[..|rs| - 1];
      PatternShape(name, init);
      assert PatternOpts(name, rs) == PatternOpts(name, init) + [Quoted(name, rs[|rs| - 1])];
    }
  }

  /** Otherwise there is one content option per match, in order. */
  lemma {:induction false} ContentValues(cs: seq<map<string, Value>>, ms: seq<string>)
    requires HasValues(cs)
    ensures |ContentList(cs, ms)| == |cs|
    ensures forall k :: 0 <= k < |cs| ==> ContentList(cs, ms)[k] == ContentOpt(cs[k], ms)
  {
    if cs != [] {
      var init := cs[..|cs| - 1];
      assert forall k :: 0 <= k < |init| ==> init[k] == cs[k];
      ContentValues(init, ms);
      var last := ContentOpt(cs[|cs| - 1], ms);
      assert ContentList(cs, ms) == ContentList(init, ms) + [last];
    }
  }

  /** Building the options never raises ValueError: only TypeError (a join over a non-str)
      and KeyError (a missing type, id or value). */
  lemma OptionErrors(a: OptionArgs)
    ensures Options(a).Err? ==> Options(a).error in {TypeError, KeyError("type"), KeyError("id"), KeyError("value")}
  {
  }

  /** `build_snort_rule` raises ValueError exactly for a traditional rule missing one of its five
      address fields, with the message naming the group the first missing field belongs to. */
  lemma RenderValueError(a: RuleArgs)
    ensures (Render(a).Err? && Render(a).error.ValueError?) <==>
      a.head.ruleType !in KeywordTypes
      && !(Truthy(a.head.protocol) && Truthy(a.head.srcIp) && Truthy(a.head.srcPort) && Truthy(a.head.dstIp) && Truthy(a.head.dstPort))
    ensures Render(a) == Err(ValueError(SourceRequired)) <==>
      a.head.ruleType !in KeywordTypes && !(Truthy(a.head.protocol) && Truthy(a.head.srcIp) && Truthy(a.head.srcPort))
  {
    OptionErrors(a.body);
  }

  /** The option lines of a rendered rule: each option on a line of its own, indented by four spaces. */
  function Indented(opts: seq<string>): (ls: seq<string>)
    ensures |ls| == |opts|
  {
    if opts == [] then [] else ["    " + opts[0] + "\n"] + Indented(opts[1..])
  }

  lemma {:induction false} JoinIndented(opts: seq<string>)
    requires |opts| >= 1
    ensures "    " + Join(opts, "\n    ") + "\n" == Concat(Indented(opts))
  {
    var line := "    " + opts[0] + "\n";
    if |opts| == 1 {
      assert Concat(Indented(opts)) == line + "";
    } else {
      JoinIndented(opts[1..]);
      var j := Join(opts[1..], "\n    ");
      assert "\n    " == "\n" + "    ";
      assert "    " + (opts[0] + "\n    " + j) + "\n" == line + ("    " + j + "\n");
    }
  }

  lemma IndentedLine(o: string)
    requires '\n' !in o
    ensures Lines("    " + o + "\n") == ["    " + o + "\n"]
    ensures ("    " + o + "\n")[|"    " + o + "\n"| - 1] == '\n'
  {
    assert '\n' !in "    " + o;
    OneLine("    " + o);
  }

  lemma PrependLine(line: string, rest: string, restLines: seq<string>)
    requires Lines(line) == [line] && line != "" && line[|line| - 1] == '\n'
    requires Lines(rest) == restLines
    ensures Lines(line + rest) == [line] + restLines
  {
    LinesAppend(line, rest);
  }

  lemma {:induction false} IndentedLines(opts: seq<string>, tail: string)
    requires forall k :: 0 <= k < |opts| ==> '\n' !in opts[k]
    ensures Lines(Concat(Indented(opts)) + tail) == Indented(opts) + Lines(tail)
  {
    if opts != [] {
      var line := "    " + opts[0] + "\n";
      var ls := Indented(opts);
      var rest := Concat(Indented(opts[1..])) + tail;
      assert ls == [line] + Indented(opts[1..]);
      assert Concat(ls) + tail == line + rest;
      IndentedLine(opts[0]);
      IndentedLines(opts[1..], tail);
      PrependLine(line, rest, Indented(opts[1..]) + Lines(tail));
      SeqAssoc([line], Indented(opts[1..]), Lines(tail));
    } else {
      assert Concat(Indented(opts)) + tail == tail;
    }
  }

  lemma LayoutSplit(header: string, body: string)
    ensures header + " (\n    " + body + "\n)" == (header + " (\n") + (("    " + body + "\n") + ")")
  {
    assert " (\n    " == " (\n" + "    ";
    assert "\n)" == "\n" + ")";
  }

  lemma HeaderLine(header: string, rest: string)
    requires '\n' !in header
    ensures Lines((header + " (\n") + rest) == [header + " (\n"] + Lines(rest)
  {
    assert header + " (\n" == (header + " (") + "\n";
    assert '\n' !in header + " (";
    OneLine(header + " (");
    LinesAppend(header + " (\n", rest);
  }

  lemma CloseLine()
    ensures Lines(")") == [")"]
  {
  }

  /** Read back line by line, a rendered rule is the header with " (", then one indented line per option
      (a blank indented line when there is none), then ")". */
  lemma LayoutLines(header: string, opts: seq<string>)
    requires '\n' !in header
    requires forall k :: 0 <= k < |opts| ==> '\n' !in opts[k]
    ensures Lines(Layout(header, opts)) == [header + " (\n"] + Indented(if opts == [] then [""] else opts) + [")"]
  {
    var o := if opts == [] then [""] else opts;
    var body := Join(opts, "\n    ");
    assert Join(o, "\n    ") == body;
    JoinIndented(o);
    IndentedLines(o, ")");
    CloseLine();
    LayoutSplit(header, body);
    HeaderLine(header, Concat(Indented(o)) + ")");
    SeqAssoc([header + " (\n"], Indented(o), [")"]);
  }

  // ---------------------------------------------------------------------
  // Int ports

  /** As written, an int port (the type the signature declares for `src_port` and `dst_port`)
      reaches `" ".join(parts)` and raises TypeError. */
  lemma IntPortRaises(a: HeaderArgs)
    requires a.ruleType !in KeywordTypes
    requires Truthy(a.protocol) && Truthy(a.srcIp) && Truthy(a.srcPort) && Truthy(a.dstIp) && Truthy(a.dstPort)
    requires a.srcPort.Int? || a.dstPort.Int?
    ensures Header(a) == Err(TypeError)
  {
    var parts := HeaderParts(a).value;
    AsStringsExact(parts);
    var n := |Act(a)|;
    assert parts[n + 2] == a.srcPort && parts[n + 5] == a.dstPort;
  }

  /** `str()` of every header word, as an f-string would format it. */
  function StrWords(vs: seq<Value>): seq<string>
  {
    seq(|vs|, k requires 0 <= k < |vs| => ToStr(vs[k]))
  }

  /** The header as evidently intended: the words formatted with `str()` before joining. */
  function HeaderFixed(a: HeaderArgs): Result<string>
  {
    match HeaderParts(a)
    case Err(e) => Err(e)
    case Ok(parts) => Ok(Join(StrWords(parts), " "))
  }

  /** `build_snort_rule` with the corrected header. */
  function RenderFixed(a: RuleArgs): Result<string>
  {
    match HeaderFixed(a.head)
    case Err(e) => Err(e)
    case Ok(h) =>
      match Options(a.body)
      case Err(e) => Err(e)
      case Ok(opts) => Ok(Layout(h, opts))
  }

  /** The correction adds no failure: wherever the rule as written renders, the corrected one
      renders the same text, and wherever the corrected one fails, so does the one as written. */
  lemma RenderFixedAgrees(a: RuleArgs)
    ensures Render(a).Ok? ==> RenderFixed(a) == Render(a)
    ensures RenderFixed(a).Err? ==> Render(a).Err?
  {
    HeaderFixedAgrees(a.head);
  }

  /** A whole rule with the example's int ports: as written it always raises TypeError, and
      corrected it renders whenever its options do. */
  lemma PortsRuleOutcome(body: OptionArgs)
    ensures Render(RuleArgs(PortsExample, body)) == Err(TypeError)
    ensures RenderFixed(RuleArgs(PortsExample, body)).Ok? <==> Options(body).Ok?
  {
    PortsExampleOutcome();
  }

  /** The corrected header raises only the ValueErrors of missing fields, and it is the header as
      written wherever that one succeeds. */
  lemma HeaderFixedAgrees(a: HeaderArgs)
    ensures HeaderFixed(a).Err? ==> HeaderFixed(a).error.ValueError?
    ensures Header(a).Ok? ==> HeaderFixed(a) == Header(a)
  {
    if HeaderParts(a).Ok? {
      var parts := HeaderParts(a).value;
      AsStringsExact(parts);
      if AsStrings(parts).Some? {
        assert AsStrings(parts).value == StrWords(parts);
      }
    }
  }

  /** A word that `str()` writes without spaces, and not empty. */
  predicate Printable(v: Value)
  {
    ToStr(v) != "" && ' ' !in ToStr(v)
  }

  lemma IntPrintable(i: int)
    ensures Printable(Int(i))
  {
    IntNoBreak(i);
  }

  /** With the correction, a traditional header reads back as its fields, int ports included. */
  lemma FixedHeaderFields(a: HeaderArgs)
    requires a.ruleType !in KeywordTypes
    requires Truthy(a.protocol) && Truthy(a.srcIp) && Truthy(a.srcPort) && Truthy(a.dstIp) && Truthy(a.dstPort)
    requires Printable(a.protocol) && Printable(a.srcIp) && Printable(a.srcPort) && Printable(a.dstIp) && Printable(a.dstPort)
    requires Printable(Direction(a))
    ensures HeaderFixed(a).Ok?
    ensures Split(HeaderFixed(a).value, ' ') == ActWords(a) + [ToStr(a.protocol), ToStr(a.srcIp), ToStr(a.srcPort),
      ToStr(Direction(a)), ToStr(a.dstIp), ToStr(a.dstPort)]
  {
    if a.action in Actions {
      ActionsAreWords(a.action);
    }
    var parts := HeaderParts(a).value;
    var words := StrWords(parts);
    assert words == ActWords(a) + [ToStr(a.protocol), ToStr(a.srcIp), ToStr(a.srcPort),
      ToStr(Direction(a)), ToStr(a.dstIp), ToStr(a.dstPort)];
    SplitJoin(words, ' ');
  }

  /** The header of an example rule with int ports: from port 80 to port 443. */
  const PortsExample := HeaderArgs(Null, Null, Str("tcp"), Str("any"), Int(80), Null, Str("any"), Int(443))

  /** On it the code as written raises TypeError, while the corrected header is produced. */
  lemma PortsExampleOutcome()
    ensures Header(PortsExample) == Err(TypeError)
    ensures HeaderFixed(PortsExample).Ok?
  {
    IntPortRaises(PortsExample);
  }
}
