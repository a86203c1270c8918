/** Indicator extraction: the three patterns tried by `ip_matches`, in order

      IPv4  \b(?:\d{1,3}\.){3}\d{1,3}\b
      IPv6  \b(?:[a-fA-F0-9]{1,4}:){7}[a-fA-F0-9]{1,4}\b
      URL   \bhttps?://[^\s/$.?#].[^\s]*\b

    and `re.search`, which reports the match that starts leftmost.

    Each pattern is modelled by a matcher that, given a start position, gives
    the end of the match the backtracking engine reports there. For the two
    address patterns that match is unique: a class character is never the
    separator, so every `{1,n}` group can only stop at the end of its run, and
    the final group can only stop where `\b` holds, which is again the end of
    its run. For the URL pattern the greedy `[^\s]*` gives back characters one
    at a time until `\b` holds, so the match ends at the LAST word boundary
    inside the run of non-space characters. */
module Indicators {
  import opened Text
  import opened Py

  predicate IsDigit(c: char) { '0' <= c <= '9' }

  predicate IsHex(c: char) { IsDigit(c) || 'a' <= c <= 'f' || 'A' <= c <= 'F' }

  /** `\w`, restricted to ASCII. */
  predicate IsWord(c: char) { IsDigit(c) || 'a' <= c <= 'z' || 'A' <= c <= 'Z' || c == '_' }

  /** `\s`: the characters Python's `str.isspace` accepts. */
  predicate IsSpace(c: char)
  {
    || '\U{9}' <= c <= '\U{D}' || '\U{1C}' <= c <= ' '
    || c == '\U{85}' || c == '\U{A0}' || c == '\U{1680}'
    || '\U{2000}' <= c <= '\U{200A}'
    || c == '\U{2028}' || c == '\U{2029}' || c == '\U{202F}' || c == '\U{205F}' || c == '\U{3000}'
  }

  /** `\b` at position i: exactly one of the characters around it is a word character. */
  predicate Boundary(s: string, i: nat)
    requires i <= |s|
  {
    (i > 0 && IsWord(s[i - 1])) != (i < |s| && IsWord(s[i]))
  }

  /** The character classes repeated in the patterns. */
  datatype Class = Digit | HexDigit | NonSpace

  predicate In(cls: Class, c: char)
  {
    match cls
    case Digit => IsDigit(c)
    case HexDigit => IsHex(c)
    case NonSpace => !IsSpace(c)
  }

  /** The end of the run of class characters that starts at i. */
  function RunEnd(s: string, i: nat, cls: Class): (e: nat)
    requires i <= |s|
    ensures i <= e <= |s|
    ensures forall k :: i <= k < e ==> In(cls, s[k])
    ensures e == |s| || !In(cls, s[e])
    decreases |s| - i
  {
    if i < |s| && In(cls, s[i]) then RunEnd(s, i + 1, cls) else i
  }

  /** A run is determined by where it starts and where the class first fails. */
  lemma RunEndIs(s: string, i: nat, j: nat, cls: Class)
    requires i <= j <= |s|
    requires forall k :: i <= k < j ==> In(cls, s[k])
    requires j == |s| || !In(cls, s[j])
    ensures RunEnd(s, i, cls) == j
  {
  }

  /** `(?:cls{1,maxLen}sep){n}cls{1,maxLen}\b` from position i: where it ends. */
  function Dotted(s: string, i: nat, n: nat, cls: Class, maxLen: nat, sep: char): (r: Option<nat>)
    requires i <= |s|
    ensures r.Some? ==> i < r.value <= |s|
    decreases n
  {
    var e := RunEnd(s, i, cls);
    if !(1 <= e - i <= maxLen) then None
    else if n == 0 then (if Boundary(s, e) then Some(e) else None)
    else if e < |s| && s[e] == sep then Dotted(s, e + 1, n - 1, cls, maxLen, sep)
    else None
  }

  /** The longest e in [lo, hi] where `\b` holds. */
  function LastBoundary(s: string, lo: nat, hi: nat): (r: Option<nat>)
    requires lo <= hi <= |s|
    ensures r.Some? ==> lo <= r.value <= hi && Boundary(s, r.value)
    ensures r.Some? ==> forall e :: r.value < e <= hi ==> !Boundary(s, e)
    ensures r.None? ==> forall e :: lo <= e <= hi ==> !Boundary(s, e)
    decreases hi - lo
  {
    if Boundary(s, hi) then Some(hi)
    else if hi == lo then None
    else LastBoundary(s, lo, hi - 1)
  }

  predicate At(s: string, i: nat, lit: string)
  {
    i + |lit| <= |s| && s[i..i + |lit|] == lit
  }

  /** The first character after the scheme: `[^\s/$.?#]`. */
  predicate UrlHostStart(c: char)
  {
    !IsSpace(c) && c != '/' && c != '$' && c != '.' && c != '?' && c != '#'
  }

  /** Where the text after "http://" or "https://" starts, if i begins either scheme. */
  function SchemeEnd(s: string, i: nat): Option<nat>
  {
    if At(s, i, "https://") then Some(i + 8)
    else if At(s, i, "http://") then Some(i + 7)
    else None
  }

  datatype Pattern = IPv4 | IPv6 | Url

  /** Where the match of pattern p that starts at i ends, if there is one. */
  function MatchAt(p: Pattern, s: string, i: nat): (r: Option<nat>)
    requires i <= |s|
    ensures r.Some? ==> i < r.value <= |s|
  {
    if !Boundary(s, i) then None
    else match p
      case IPv4 => Dotted(s, i, 3, Digit, 3, '.')
      case IPv6 => Dotted(s, i, 7, HexDigit, 4, ':')
      case Url =>
        match SchemeEnd(s, i)
        case None => None
        case Some(q) =>
          if q + 1 < |s| && UrlHostStart(s[q]) && s[q + 1] != '\n' then
            LastBoundary(s, q + 2, RunEnd(s, q + 2, NonSpace))
          else None
  }

  /** `re.search(p, s)` from position i on: the leftmost start with a match, and the match's end. */
  function SearchFrom(p: Pattern, s: string, i: nat): (r: Option<(nat, nat)>)
    requires i <= |s| + 1
    ensures r.None? <==> forall j :: i <= j <= |s| ==> MatchAt(p, s, j).None?
    ensures r.Some? ==> i <= r.value.0 <= |s| && MatchAt(p, s, r.value.0) == Some(r.value.1)
    ensures r.Some? ==> forall j :: i <= j < r.value.0 ==> MatchAt(p, s, j).None?
    decreases |s| + 1 - i
  {
    if i > |s| then None
    else match MatchAt(p, s, i)
      case Some(e) => Some((i, e))
      case None => SearchFrom(p, s, i + 1)
  }

  /** `m = re.search(p, s)` then `m.group(0)`, or None when nothing matches. */
  function Search(p: Pattern, s: string): Option<string>
  {
    match SearchFrom(p, s, 0)
    case None => None
    case Some((i, e)) => Some(s[i..e])
  }

  /** The patterns in the order `ip_matches` tries them. */
  const Priority: seq<Pattern> := [IPv4, IPv6, Url]

  /** What the searches of the patterns give, in the order they are tried. */
  function Results(data: string): (rs: seq<Option<string>>)
    ensures |rs| == |Priority|
    ensures forall k :: 0 <= k < |Priority| ==> rs[k] == Search(Priority[k], data)
  {
    [Search(IPv4, data), Search(IPv6, data), Search(Url, data)]
  }

  /** The first result that is a hit. */
  function FirstSome(rs: seq<Option<string>>): (r: Option<string>)
    ensures r.None? <==> forall k :: 0 <= k < |rs| ==> rs[k].None?
    ensures r.Some? ==> exists k :: 0 <= k < |rs| && rs[k] == r && forall j :: 0 <= j < k ==> rs[j].None?
  {
    if rs == [] then None
    else if rs[0].Some? then rs[0]
    else
      var r := FirstSome(rs[1..]);
      assert forall k :: 1 <= k < |rs| ==> rs[k] == rs[1..][k - 1];
      r
  }

  /** What `ip_matches(data)` returns. */
  function Extract(data: string): Option<string>
  {
    FirstSome(Results(data))
  }

  /** `ip_matches`: try the IPv4, IPv6 and URL patterns in turn and return the first match found. */
  method IpMatches(data: string) returns (r: Option<string>)
    ensures r == Extract(data)
  {
    var patterns := Priority;
    var k := 0;
    while k < |patterns|
      invariant 0 <= k <= |patterns| && patterns == Priority
      invariant forall j :: 0 <= j < k ==> Results(data)[j].None?
    {
      var m := Search(patterns[k], data);
      if m.Some? {
        r := m;
        PrefixMissesThenHit(Results(data), k);
        return;
      }
      k := k + 1;
    }
    r := None;
  }

  /** When the first k results miss and result k hits, that hit is the first one. */
  lemma {:induction false} PrefixMissesThenHit(rs: seq<Option<string>>, k: nat)
    requires k < |rs|
    requires forall j :: 0 <= j < k ==> rs[j].None?
    requires rs[k].Some?
    ensures FirstSome(rs) == rs[k]
  {
    if k > 0 {
      assert rs[0].None?;
      assert forall j :: 0 <= j < k - 1 ==> rs[1..][j] == rs[j + 1];
      PrefixMissesThenHit(rs[1..], k - 1);
    }
  }

  // ---------------------------------------------------------------------
  // Properties of the extraction

  /** The first hit among three results. */
  lemma FirstOfThree(x: Option<string>, y: Option<string>, z: Option<string>)
    ensures FirstSome([x, y, z]) == if x.Some? then x else if y.Some? then y else z
  {
    assert [x, y, z][1..] == [y, z];
    assert [y, z][1..] == [z];
    assert [z][1..] == [];
    assert FirstSome([z]) == z;
    assert FirstSome([y, z]) == if y.Some? then y else z;
  }

  /** The extraction tries IPv4, then IPv6, then the URL pattern. */
  lemma ExtractCases(data: string)
    ensures var v4, v6, url := Search(IPv4, data), Search(IPv6, data), Search(Url, data);
            Extract(data) == if v4.Some? then v4 else if v6.Some? then v6 else url
  {
    FirstOfThree(Search(IPv4, data), Search(IPv6, data), Search(Url, data));
  }

  /** Nothing is extracted exactly when none of the three patterns matches anywhere. */
  lemma ExtractNone(data: string)
    ensures Extract(data).None? <==> Search(IPv4, data).None? && Search(IPv6, data).None? && Search(Url, data).None?
  {
    ExtractCases(data);
  }

  /** An IPv4 hit decides the result whatever the IPv6 and URL patterns would find. */
  lemma IPv4Wins(data: string)
    requires Search(IPv4, data).Some?
    ensures Extract(data) == Search(IPv4, data)
  {
    ExtractCases(data);
  }

  /** The IPv6 pattern decides only when the IPv4 one finds nothing, and the URL pattern only when neither does. */
  lemma PriorityOrder(data: string)
    ensures Search(IPv4, data).None? && Search(IPv6, data).Some? ==> Extract(data) == Search(IPv6, data)
    ensures Search(IPv4, data).None? && Search(IPv6, data).None? ==> Extract(data) == Search(Url, data)
  {
    ExtractCases(data);
  }

  /** A match is a nonempty piece of the searched text, found at the leftmost start that matches. */
  lemma SearchIsLeftmost(p: Pattern, s: string) returns (i: nat, e: nat)
    requires Search(p, s).Some?
    ensures i < e <= |s| && Search(p, s) == Some(s[i..e]) && MatchAt(p, s, i) == Some(e)
    ensures forall j :: 0 <= j < i ==> MatchAt(p, s, j).None?
  {
    i, e := SearchFrom(p, s, 0).value.0, SearchFrom(p, s, 0).value.1;
  }

  /** Whatever a search returns occurs in the searched text and is not empty. */
  lemma SearchOccurs(p: Pattern, s: string)
    requires Search(p, s).Some?
    ensures Contains(s, Search(p, s).value) && Search(p, s).value != ""
  {
    var i, e := SearchIsLeftmost(p, s);
    SliceContained(s, i, e);
  }

  lemma SliceContained(s: string, i: nat, e: nat)
    requires i < e <= |s|
    ensures Contains(s, s[i..e]) && s[i..e] != ""
  {
    ContainsAt(s, s[i..e], i);
  }

  /** Whatever `ip_matches` returns occurs in its input. */
  lemma ExtractOccurs(data: string)
    requires Extract(data).Some?
    ensures Contains(data, Extract(data).value) && Extract(data).value != ""
  {
    ExtractCases(data);
    if Search(IPv4, data).Some? {
      SearchOccurs(IPv4, data);
    } else if Search(IPv6, data).Some? {
      SearchOccurs(IPv6, data);
    } else {
      SearchOccurs(Url, data);
    }
  }

  // ---------------------------------------------------------------------
  // What the address patterns accept

  /** One `cls{1,maxLen}` group. */
  predicate GroupOk(g: string, cls: Class, maxLen: nat)
  {
    1 <= |g| <= maxLen && forall k :: 0 <= k < |g| ==> In(cls, g[k])
  }

  /** count groups of 1 to maxLen class characters separated by single sep characters. */
  predicate IsDotted(t: string, count: nat, cls: Class, maxLen: nat, sep: char)
  {
    var parts := Split(t, sep);
    |parts| == count && forall k :: 0 <= k < |parts| ==> GroupOk(parts[k], cls, maxLen)
  }

  /** The address classes hold only word characters, and never their separator. */
  predicate AddressClass(cls: Class, sep: char)
  {
    (cls == Digit || cls == HexDigit) && !In(cls, sep)
  }

  lemma AddressClassWord(cls: Class, sep: char, c: char)
    requires AddressClass(cls, sep) && In(cls, c)
    ensures IsWord(c) && c != sep
  {
  }

  /** The matcher for the address patterns accepts exactly the dotted texts the pattern describes that end at `\b`. */
  lemma DottedExact(s: string, i: nat, n: nat, cls: Class, maxLen: nat, sep: char, e: nat)
    requires AddressClass(cls, sep)
    requires i <= e <= |s|
    ensures Dotted(s, i, n, cls, maxLen, sep) == Some(e) <==> Boundary(s, e) && IsDotted(s[i..e], n + 1, cls, maxLen, sep)
  {
    if Dotted(s, i, n, cls, maxLen, sep) == Some(e) {
      DottedSound(s, i, n, cls, maxLen, sep, e);
      DottedBoundary(s, i, n, cls, maxLen, sep, e);
    }
    if Boundary(s, e) && IsDotted(s[i..e], n + 1, cls, maxLen, sep) {
      DottedComplete(s, i, n, cls, maxLen, sep, e);
    }
  }

  /** What the matcher accepts is a dotted text ending at `\b`. */
  lemma {:induction false} DottedSound(s: string, i: nat, n: nat, cls: Class, maxLen: nat, sep: char, e: nat)
    requires AddressClass(cls, sep)
    requires i <= e <= |s| && Dotted(s, i, n, cls, maxLen, sep) == Some(e)
    ensures IsDotted(s[i..e], n + 1, cls, maxLen, sep)
    decreases n
  {
    if n == 0 {
      DottedLast(s, i, cls, maxLen, sep, e);
    } else {
      var r := DottedStep(s, i, n, cls, maxLen, sep, e);
      DottedSound(s, r + 1, n - 1, cls, maxLen, sep, e);
      GroupThenRest(s, i, r, e, n, cls, maxLen, sep);
    }
  }

  /** The matcher stops only where `\b` holds. */
  lemma {:induction false} DottedBoundary(s: string, i: nat, n: nat, cls: Class, maxLen: nat, sep: char, e: nat)
    requires i <= e <= |s| && Dotted(s, i, n, cls, maxLen, sep) == Some(e)
    ensures Boundary(s, e)
    decreases n
  {
    if n > 0 {
      var r := DottedStep(s, i, n, cls, maxLen, sep, e);
      DottedBoundary(s, r + 1, n - 1, cls, maxLen, sep, e);
    }
  }

  /** A group ending at a separator, followed by a dotted text, is a dotted text with one more group. */
  lemma GroupThenRest(s: string, i: nat, r: nat, e: nat, n: nat, cls: Class, maxLen: nat, sep: char)
    requires AddressClass(cls, sep)
    requires i < r < e <= |s| && r - i <= maxLen && s[r] == sep
    requires forall k :: i <= k < r ==> In(cls, s[k])
    requires IsDotted(s[r + 1..e], n, cls, maxLen, sep)
    ensures IsDotted(s[i..e], n + 1, cls, maxLen, sep)
  {
    GroupAt(s, i, r, cls, maxLen, sep);
    SliceAround(s, i, r, e);
    IsDottedCons(s[i..r], s[r + 1..e], n, cls, maxLen, sep);
  }

  /** The last step of the matcher: one group, then `\b`. */
  lemma DottedLast(s: string, i: nat, cls: Class, maxLen: nat, sep: char, e: nat)
    requires AddressClass(cls, sep)
    requires i <= e <= |s| && Dotted(s, i, 0, cls, maxLen, sep) == Some(e)
    ensures Boundary(s, e) && IsDotted(s[i..e], 1, cls, maxLen, sep)
  {
    LastGroupSplit(s, i, e, cls, maxLen, sep);
  }

  /** One step of the matcher: a group up to a separator, after which the rest of the match starts. */
  lemma DottedStep(s: string, i: nat, n: nat, cls: Class, maxLen: nat, sep: char, e: nat) returns (r: nat)
    requires i <= |s| && n > 0 && Dotted(s, i, n, cls, maxLen, sep) == Some(e)
    ensures i < r < e <= |s| && r - i <= maxLen && s[r] == sep
    ensures forall k :: i <= k < r ==> In(cls, s[k])
    ensures Dotted(s, r + 1, n - 1, cls, maxLen, sep) == Some(e)
  {
    r := RunEnd(s, i, cls);
  }

  /** A text cut around one position. */
  lemma SliceAround(s: string, i: nat, r: nat, e: nat)
    requires i <= r < e <= |s|
    ensures s[i..e] == s[i..r] + [s[r]] + s[r + 1..e]
  {
  }

  /** A run of at most maxLen class characters is one group, and holds no separator. */
  lemma GroupAt(s: string, i: nat, r: nat, cls: Class, maxLen: nat, sep: char)
    requires AddressClass(cls, sep)
    requires i < r <= |s| && r - i <= maxLen
    requires forall k :: i <= k < r ==> In(cls, s[k])
    ensures GroupOk(s[i..r], cls, maxLen) && sep !in s[i..r]
  {
    var g := s[i..r];
    forall k | 0 <= k < |g| ensures In(cls, g[k]) && g[k] != sep {
      assert g[k] == s[i + k];
    }
  }

  lemma LastGroupSplit(s: string, i: nat, e: nat, cls: Class, maxLen: nat, sep: char)
    requires AddressClass(cls, sep)
    requires i < e <= |s| && e - i <= maxLen
    requires forall k :: i <= k < e ==> In(cls, s[k])
    ensures IsDotted(s[i..e], 1, cls, maxLen, sep)
  {
    GroupAt(s, i, e, cls, maxLen, sep);
    IsDottedOne(s[i..e], cls, maxLen, sep);
  }

  /** A text without a separator is dotted with one group exactly when it is a group. */
  lemma IsDottedOne(t: string, cls: Class, maxLen: nat, sep: char)
    requires sep !in t
    ensures IsDotted(t, 1, cls, maxLen, sep) <==> GroupOk(t, cls, maxLen)
  {
    var parts := Split(t, sep);
    assert parts == [t];
    if GroupOk(t, cls, maxLen) {
      assert forall k :: 0 <= k < |parts| ==> parts[k] == t;
    }
    if IsDotted(t, 1, cls, maxLen, sep) {
      assert GroupOk(parts[0], cls, maxLen);
    }
  }

  /** A text that starts with a separator-free piece and a separator is dotted with n + 1 groups
      exactly when that piece is a group and the rest is dotted with n. */
  lemma IsDottedCons(g: string, u: string, n: nat, cls: Class, maxLen: nat, sep: char)
    requires sep !in g
    ensures IsDotted(g + [sep] + u, n + 1, cls, maxLen, sep) <==> GroupOk(g, cls, maxLen) && IsDotted(u, n, cls, maxLen, sep)
  {
    var t := g + [sep] + u;
    IndexOfAfter(g, sep, u);
    assert t[..|g|] == g;
    assert t[|g| + 1..] == u;
    var parts := Split(t, sep);
    var rest := Split(u, sep);
    assert parts == [g] + rest;
    if GroupOk(g, cls, maxLen) && IsDotted(u, n, cls, maxLen, sep) {
      forall k | 0 <= k < |parts| ensures GroupOk(parts[k], cls, maxLen) {
        if k > 0 {
          assert parts[k] == rest[k - 1];
        }
      }
    }
    if IsDotted(t, n + 1, cls, maxLen, sep) {
      assert GroupOk(parts[0], cls, maxLen);
      forall k | 0 <= k < |rest| ensures GroupOk(rest[k], cls, maxLen) {
        assert rest[k] == parts[k + 1];
      }
    }
  }

  /** A dotted text ending at `\b` is what the matcher accepts. */
  lemma {:induction false} DottedComplete(s: string, i: nat, n: nat, cls: Class, maxLen: nat, sep: char, e: nat)
    requires AddressClass(cls, sep)
    requires i <= e <= |s|
    requires Boundary(s, e) && IsDotted(s[i..e], n + 1, cls, maxLen, sep)
    ensures Dotted(s, i, n, cls, maxLen, sep) == Some(e)
    decreases n
  {
    if sep !in s[i..e] {
      CompleteLast(s, i, n, cls, maxLen, sep, e);
    } else {
      var r := CompleteSplit(s, i, n, cls, maxLen, sep, e);
      DottedComplete(s, r + 1, n - 1, cls, maxLen, sep, e);
      RunEndIs(s, i, r, cls);
      DottedUnfold(s, i, n, r, cls, maxLen, sep);
    }
  }

  /** Without a separator the dotted text is a single group, which the matcher takes whole. */
  lemma CompleteLast(s: string, i: nat, n: nat, cls: Class, maxLen: nat, sep: char, e: nat)
    requires AddressClass(cls, sep)
    requires i <= e <= |s| && sep !in s[i..e]
    requires Boundary(s, e) && IsDotted(s[i..e], n + 1, cls, maxLen, sep)
    ensures Dotted(s, i, n, cls, maxLen, sep) == Some(e)
  {
    var t := s[i..e];
    IsDottedOne(t, cls, maxLen, sep);
    if n > 0 {
      assert false;
    }
    RunOfGroup(s, i, e, cls, maxLen);
    if e < |s| && In(cls, s[e]) {
      AddressClassWord(cls, sep, s[e]);
      AddressClassWord(cls, sep, s[e - 1]);
      assert false;
    }
    RunEndIs(s, i, e, cls);
  }

  /** With a separator the dotted text is a group, the separator, and a dotted text with one group fewer. */
  lemma CompleteSplit(s: string, i: nat, n: nat, cls: Class, maxLen: nat, sep: char, e: nat) returns (r: nat)
    requires AddressClass(cls, sep)
    requires i <= e <= |s| && sep in s[i..e]
    requires IsDotted(s[i..e], n + 1, cls, maxLen, sep)
    ensures n > 0 && i < r < e && r - i <= maxLen && s[r] == sep
    ensures forall k :: i <= k < r ==> In(cls, s[k])
    ensures r == |s| || !In(cls, s[r])
    ensures IsDotted(s[r + 1..e], n, cls, maxLen, sep)
  {
    var t := s[i..e];
    var x := CutDotted(t, n, cls, maxLen, sep);
    r := i + x;
    assert s[r] == t[x];
    assert t[..x] == s[i..r];
    RunOfGroup(s, i, r, cls, maxLen);
    assert t[x + 1..] == s[r + 1..e];
    AddressClassSep(cls, sep);
  }

  /** A dotted text with a separator: its first group, then the rest. */
  lemma CutDotted(t: string, n: nat, cls: Class, maxLen: nat, sep: char) returns (x: nat)
    requires sep in t && IsDotted(t, n + 1, cls, maxLen, sep)
    ensures n > 0 && x < |t| && t[x] == sep
    ensures GroupOk(t[..x], cls, maxLen) && IsDotted(t[x + 1..], n, cls, maxLen, sep)
  {
    x := IndexOf(t, sep);
    var g := t[..x];
    var u := t[x + 1..];
    assert t == g + [sep] + u;
    IsDottedCons(g, u, n, cls, maxLen, sep);
    if n == 0 {
      assert false;
    }
  }

  lemma AddressClassSep(cls: Class, sep: char)
    requires AddressClass(cls, sep)
    ensures !In(cls, sep)
  {
  }

  /** Where the first run ends at a separator, the matcher goes on after it. */
  lemma DottedUnfold(s: string, i: nat, n: nat, r: nat, cls: Class, maxLen: nat, sep: char)
    requires i <= r < |s| && n > 0 && r == RunEnd(s, i, cls) && s[r] == sep && 1 <= r - i <= maxLen
    ensures Dotted(s, i, n, cls, maxLen, sep) == Dotted(s, r + 1, n - 1, cls, maxLen, sep)
  {
  }

  /** The characters of a group are class characters of the text it sits in. */
  lemma RunOfGroup(s: string, i: nat, r: nat, cls: Class, maxLen: nat)
    requires i <= r <= |s| && GroupOk(s[i..r], cls, maxLen)
    ensures forall k :: i <= k < r ==> In(cls, s[k])
    ensures 1 <= r - i <= maxLen
  {
    forall k | i <= k < r ensures In(cls, s[k]) {
      assert s[k] == s[i..r][k - i];
    }
  }

  /** `ip_matches` finds an IPv4 match at i exactly when four groups of one to three digits separated by dots sit between word boundaries there. */
  lemma IPv4Exact(s: string, i: nat, e: nat)
    requires i <= e <= |s|
    ensures MatchAt(IPv4, s, i) == Some(e) <==> Boundary(s, i) && Boundary(s, e) && IsDotted(s[i..e], 4, Digit, 3, '.')
  {
    DottedExact(s, i, 3, Digit, 3, '.', e);
  }

  /** The IPv6 pattern matches at i exactly when eight groups of one to four hex digits separated by colons sit between word boundaries there. */
  lemma IPv6Exact(s: string, i: nat, e: nat)
    requires i <= e <= |s|
    ensures MatchAt(IPv6, s, i) == Some(e) <==> Boundary(s, i) && Boundary(s, e) && IsDotted(s[i..e], 8, HexDigit, 4, ':')
  {
    DottedExact(s, i, 7, HexDigit, 4, ':', e);
  }

  /** The URL pattern's match: a scheme, a first host character, any character but a newline, then
      non-space characters up to the last word boundary before the next space. */
  lemma UrlShape(s: string, i: nat)
    requires i <= |s|
    requires MatchAt(Url, s, i).Some?
    ensures Boundary(s, i) && SchemeEnd(s, i).Some?
    ensures var q := SchemeEnd(s, i).value;
            var e := MatchAt(Url, s, i).value;
            q + 2 <= e && UrlHostStart(s[q]) && s[q + 1] != '\n' && Boundary(s, e)
            && (forall k :: q + 2 <= k < e ==> !IsSpace(s[k]))
            && (forall e' :: e < e' <= |s| && (forall k :: e <= k < e' ==> !IsSpace(s[k])) ==> !Boundary(s, e'))
  {
    var e := MatchAt(Url, s, i).value;
    var q := SchemeEnd(s, i).value;
    var end := RunEnd(s, q + 2, NonSpace);
    assert e == LastBoundary(s, q + 2, end).value;
    forall e' | e < e' <= |s| && (forall k :: e <= k < e' ==> !IsSpace(s[k]))
      ensures !Boundary(s, e')
    {
      assert e' <= end;
    }
  }

  // ---------------------------------------------------------------------
  // The octet values are never checked

  /** A dotted quad starts with the first digit of its first group and ends with the last digit of its last. */
  lemma QuadEnds(a: string, b: string, c: string, d: string)
    requires GroupOk(a, Digit, 3) && GroupOk(d, Digit, 3)
    ensures var quad := a + "." + b + "." + c + "." + d;
            IsWord(quad[0]) && IsWord(quad[|quad| - 1])
  {
    var quad := a + "." + b + "." + c + "." + d;
    assert quad[0] == a[0];
    assert quad[|quad| - 1] == d[|d| - 1];
  }

  /** Four dotted digit groups between word boundaries are an IPv4 match. */
  lemma DelimitedIPv4(s: string, i: nat, t: string)
    requires i + |t| <= |s| && s[i..i + |t|] == t
    requires IsDotted(t, 4, Digit, 3, '.') && t != "" && IsWord(t[0]) && IsWord(t[|t| - 1])
    requires i == 0 || !IsWord(s[i - 1])
    requires i + |t| == |s| || !IsWord(s[i + |t|])
    ensures MatchAt(IPv4, s, i) == Some(i + |t|)
  {
    var e := i + |t|;
    assert s[i] == t[0];
    assert s[e - 1] == t[|t| - 1];
    IPv4Exact(s, i, e);
  }

  /** Four digit groups joined by dots form a dotted text of four groups. */
  lemma QuadDotted(a: string, b: string, c: string, d: string)
    requires GroupOk(a, Digit, 3) && GroupOk(b, Digit, 3) && GroupOk(c, Digit, 3) && GroupOk(d, Digit, 3)
    ensures IsDotted(a + "." + b + "." + c + "." + d, 4, Digit, 3, '.')
  {
    NoDot(a);
    NoDot(b);
    NoDot(c);
    NoDot(d);
    IsDottedOne(d, Digit, 3, '.');
    IsDottedCons(c, d, 1, Digit, 3, '.');
    IsDottedCons(b, c + "." + d, 2, Digit, 3, '.');
    IsDottedCons(a, b + "." + (c + "." + d), 3, Digit, 3, '.');
    assert a + "." + b + "." + c + "." + d == a + "." + (b + "." + (c + "." + d));
  }

  lemma NoDot(g: string)
    requires GroupOk(g, Digit, 3)
    ensures '.' !in g
  {
    forall k | 0 <= k < |g| ensures g[k] != '.' {
      assert IsDigit(g[k]);
    }
  }

  /** A text that is nothing but a dotted quad is returned whole by `ip_matches`. */
  lemma OnlyQuad(a: string, b: string, c: string, d: string)
    requires GroupOk(a, Digit, 3) && GroupOk(b, Digit, 3) && GroupOk(c, Digit, 3) && GroupOk(d, Digit, 3)
    ensures var quad := a + "." + b + "." + c + "." + d;
            Extract(quad) == Some(quad)
  {
    var quad := a + "." + b + "." + c + "." + d;
    assert quad[0..|quad|] == quad;
    QuadDotted(a, b, c, d);
    QuadEnds(a, b, c, d);
    DelimitedIPv4(quad, 0, quad);
    assert SearchFrom(IPv4, quad, 0) == Some((0 as nat, |quad|));
    IPv4Wins(quad);
  }

  /** "999.1.1.1" is taken as an IPv4 address although 999 is no octet. */
  lemma NoOctetRangeCheck()
    ensures Extract("999.1.1.1") == Some("999.1.1.1")
  {
    var quad := "999" + "." + "1" + "." + "1" + "." + "1";
    assert quad == "999.1.1.1";
    assert GroupOk("999", Digit, 3) && GroupOk("1", Digit, 3);
    OnlyQuad("999", "1", "1", "1");
  }
}
