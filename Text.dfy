/** Python string behaviour the rule agent relies on, over Dafny strings.

    `in` on two strings, `str.join`, splitting on one separator, `readlines`
    on a file opened in text mode (universal newlines) and positional digit
    rendering as used by `str(int)`, `%02d`-style padding and `:02x`. */
module Text {

  // ---------------------------------------------------------------------
  // Substrings

  /** `needle in hay` for two Python strings. */
  predicate Contains(hay: string, needle: string)
    decreases |hay|
  {
    if |needle| > |hay| then false
    else hay[..|needle|] == needle || (|hay| > 0 && Contains(hay[1..], needle))
  }

  /** A needle found at position i makes `needle in hay` true. */
  lemma {:induction false} ContainsAt(hay: string, needle: string, i: nat)
    requires i + |needle| <= |hay| && hay[i..i + |needle|] == needle
    ensures Contains(hay, needle)
  {
    if i > 0 {
      assert hay[1..][i - 1..i - 1 + |needle|] == hay[i..i + |needle|];
      ContainsAt(hay[1..], needle, i - 1);
    }
  }

  /** `needle in hay` holds only because of some position. */
  lemma {:induction false} ContainsIndex(hay: string, needle: string) returns (i: nat)
    requires Contains(hay, needle)
    ensures i + |needle| <= |hay| && hay[i..i + |needle|] == needle
    decreases |hay|
  {
    if hay[..|needle|] == needle {
      i := 0;
    } else {
      var j := ContainsIndex(hay[1..], needle);
      assert hay[1..][j..j + |needle|] == hay[j + 1..j + 1 + |needle|];
      i := j + 1;
    }
  }

  /** Extending a string on the right keeps every substring it had. */
  lemma ContainsExtend(a: string, b: string, needle: string)
    requires Contains(a, needle)
    ensures Contains(a + b, needle)
  {
    var i := ContainsIndex(a, needle);
    assert (a + b)[i..i + |needle|] == a[i..i + |needle|];
    ContainsAt(a + b, needle, i);
  }

  lemma ContainsSelf(a: string, b: string, c: string)
    ensures Contains(a + b + c, b)
  {
    assert (a + b + c)[|a|..|a| + |b|] == b;
    ContainsAt(a + b + c, b, |a|);
  }

  predicate StartsWith(s: string, prefix: string) {
    |prefix| <= |s| && s[..|prefix|] == prefix
  }

  predicate EndsWith(s: string, suffix: string) {
    |suffix| <= |s| && s[|s| - |suffix|..] == suffix
  }

  // ---------------------------------------------------------------------
  // First occurrence, split and join

  /** The first position of c in s (Python `s.index(c)`). */
  function IndexOf(s: string, c: char): (i: nat)
    requires c in s
    ensures i < |s| && s[i] == c && c !in s[..i]
  {
    if s[0] == c then 0
    else
      var j := IndexOf(s[1..], c);
      assert s[..j + 1] == [s[0]] + s[1..][..j];
      j + 1
  }

  /** The first c in a + [c] + b is the one after a. */
  lemma IndexOfAfter(a: string, c: char, b: string)
    requires c !in a
    ensures c in a + [c] + b && IndexOf(a + [c] + b, c) == |a|
  {
    var s := a + [c] + b;
    assert s[|a|] == c;
    assert s[..|a|] == a;
  }

  /** Occurrences in a prefix are found before anything appended. */
  lemma IndexOfPrefix(a: string, b: string, c: char)
    requires c in a
    ensures c in a + b && IndexOf(a + b, c) == IndexOf(a, c)
  {
    var i := IndexOf(a, c);
    assert (a + b)[i] == c;
    assert (a + b)[..i] == a[..i];
  }

  /** Splitting on one separator character, like `s.split(sep)` with a one-character separator. */
  function Split(s: string, sep: char): (parts: seq<string>)
    ensures |parts| >= 1
    decreases |s|
  {
    if sep in s then
      var i := IndexOf(s, sep);
      [s[..i]] + Split(s[i + 1..], sep)
    else [s]
  }

  /** Concatenation regroups freely. */
  lemma SeqAssoc<T>(a: seq<T>, b: seq<T>, c: seq<T>)
    ensures a + (b + c) == (a + b) + c
  {
  }

  /** Equal concatenations with equally long first parts have equal parts. */
  lemma ConcatCancel(a1: string, b1: string, a2: string, b2: string)
    requires |a1| == |a2| && a1 + b1 == a2 + b2
    ensures a1 == a2 && b1 == b2
  {
    assert a1 == (a1 + b1)[..|a1|];
    assert a2 == (a2 + b2)[..|a2|];
    assert b1 == (a1 + b1)[|a1|..];
    assert b2 == (a2 + b2)[|a2|..];
  }

  /** `sep.join(parts)`. */
  function Join(parts: seq<string>, sep: string): string
  {
    if |parts| == 0 then ""
    else if |parts| == 1 then parts[0]
    else parts[0] + sep + Join(parts[1..], sep)
  }

  /** Splitting a join on a separator that no part contains gives the parts back. */
  lemma {:induction false} SplitJoin(parts: seq<string>, sep: char)
    requires |parts| >= 1
    requires forall k :: 0 <= k < |parts| ==> sep !in parts[k]
    ensures Split(Join(parts, [sep]), sep) == parts
  {
    if |parts| > 1 {
      var rest := Join(parts[1..], [sep]);
      IndexOfAfter(parts[0], sep, rest);
      var s := parts[0] + [sep] + rest;
      assert s[..|parts[0]|] == parts[0];
      assert s[|parts[0]| + 1..] == rest;
      SplitJoin(parts[1..], sep);
    }
  }

  /** Appending one more part to a join. */
  lemma {:induction false} JoinSnoc(parts: seq<string>, x: string, sep: string)
    requires |parts| >= 1
    ensures Join(parts + [x], sep) == Join(parts, sep) + sep + x
  {
    if |parts| == 1 {
      assert (parts + [x])[1..] == [x];
    } else {
      assert (parts + [x])[1..] == parts[1..] + [x];
      JoinSnoc(parts[1..], x, sep);
    }
  }

  // ---------------------------------------------------------------------
  // Lines of a text file

  /** `file.readlines()`: every line keeps its '\n'; a last line without one is kept as it is. */
  function Lines(t: string): seq<string>
    decreases |t|
  {
    if t == "" then []
    else if '\n' in t then
      var i := IndexOf(t, '\n');
      [t[..i + 1]] + Lines(t[i + 1..])
    else [t]
  }

  /** The string made by writing a sequence of lines out one after another (`writelines`). */
  function Concat(ls: seq<string>): string
  {
    if ls == [] then "" else ls[0] + Concat(ls[1..])
  }

  /** `writelines(readlines())` reproduces the text it read. */
  lemma {:induction false} ConcatLines(t: string)
    ensures Concat(Lines(t)) == t
    decreases |t|
  {
    if t != "" && '\n' in t {
      var i := IndexOf(t, '\n');
      ConcatLines(t[i + 1..]);
      assert t == t[..i + 1] + t[i + 1..];
    }
  }

  /** No line returned by readlines has a '\n' anywhere but at its end. */
  lemma {:induction false} LinesShape(t: string)
    ensures forall k :: 0 <= k < |Lines(t)| ==> Lines(t)[k] != "" && '\n' !in Lines(t)[k][..|Lines(t)[k]| - 1]
    decreases |t|
  {
    if t != "" && '\n' in t {
      var i := IndexOf(t, '\n');
      LinesShape(t[i + 1..]);
      assert t[..i + 1][..i] == t[..i];
    }
  }

  /** The first line of a text with a newline, and what appending does to it. */
  lemma FirstLine(a: string, b: string) returns (i: nat)
    requires '\n' in a
    ensures i < |a| && a[i] == '\n'
    ensures Lines(a) == [a[..i + 1]] + Lines(a[i + 1..])
    ensures Lines(a + b) == [a[..i + 1]] + Lines(a[i + 1..] + b)
  {
    i := IndexOf(a, '\n');
    IndexOfPrefix(a, b, '\n');
    assert (a + b)[..i + 1] == a[..i + 1];
    assert (a + b)[i + 1..] == a[i + 1..] + b;
  }

  /** Text that ends a line splits into its own lines followed by the lines of what comes next. */
  lemma {:induction false} LinesAppend(a: string, b: string)
    requires a == "" || a[|a| - 1] == '\n'
    ensures Lines(a + b) == Lines(a) + Lines(b)
    decreases |a|
  {
    if a != "" {
      assert a[|a| - 1] in a;
      var i := FirstLine(a, b);
      var rest := a[i + 1..];
      assert rest == "" || rest[|rest| - 1] == a[|a| - 1];
      LinesAppend(rest, b);
    } else {
      assert a + b == b;
    }
  }

  /** A string without a newline, followed by one, is read back as exactly one line. */
  lemma OneLine(r: string)
    requires '\n' !in r
    ensures Lines(r + "\n") == [r + "\n"]
  {
    IndexOfAfter(r, '\n', "");
    assert r + "\n" == r + ['\n'] + "";
    assert (r + "\n")[|r| + 1..] == "";
  }

  /** Appending text never loses a line's contents: each old line is a prefix of some new line. */
  lemma {:induction false} LinesExtend(a: string, b: string, k: nat) returns (j: nat)
    requires k < |Lines(a)|
    ensures j < |Lines(a + b)| && StartsWith(Lines(a + b)[j], Lines(a)[k])
    decreases |a|
  {
    if '\n' in a {
      var i := FirstLine(a, b);
      var line := a[..i + 1];
      var rest := a[i + 1..];
      if k == 0 {
        j := 0;
        assert Lines(a + b)[0] == line == Lines(a)[0];
      } else {
        assert Lines(a)[k] == Lines(rest)[k - 1];
        var j' := LinesExtend(rest, b, k - 1);
        j := j' + 1;
        assert Lines(a + b)[j] == Lines(rest + b)[j'];
      }
    } else {
      j := 0;
      LastLineExtend(a, b);
    }
  }

  /** A text without a newline is one line, and it begins the first line of any extension. */
  lemma LastLineExtend(a: string, b: string)
    requires '\n' !in a && a != ""
    ensures Lines(a) == [a] && Lines(a + b) != [] && StartsWith(Lines(a + b)[0], a)
  {
    assert (a + b)[..|a|] == a;
    if '\n' in a + b {
      var i := IndexOf(a + b, '\n');
      assert (a + b)[..i + 1][..|a|] == a;
    }
  }

  /** A string that no reading can break across lines: it holds neither '\n' nor '\r'. */
  predicate NoBreak(s: string) {
    '\n' !in s && '\r' !in s
  }

  /** `any(needle in line for line in lines)`. */
  predicate AnyContains(lines: seq<string>, needle: string) {
    exists k :: 0 <= k < |lines| && Contains(lines[k], needle)
  }

  /** Appending to a text keeps every substring of every line it had in some line. */
  lemma AnyContainsExtend(a: string, b: string, needle: string)
    requires AnyContains(Lines(a), needle)
    ensures AnyContains(Lines(a + b), needle)
  {
    var k :| 0 <= k < |Lines(a)| && Contains(Lines(a)[k], needle);
    var j := LinesExtend(a, b, k);
    var l := Lines(a + b)[j];
    assert l == Lines(a)[k] + l[|Lines(a)[k]|..];
    ContainsExtend(Lines(a)[k], l[|Lines(a)[k]|..], needle);
  }

  /** A line with no '\n' before its last character holds no needle with a '\n' before its
      last character. */
  lemma {:induction false} NotInLine(l: string, needle: string, j: nat)
    requires l != "" && '\n' !in l[..|l| - 1]
    requires j + 1 < |needle| && needle[j] == '\n'
    ensures !Contains(l, needle)
    decreases |l|
  {
    if |needle| <= |l| {
      assert l[..|needle|][j] == l[..|l| - 1][j];
      assert l[1..][..|l| - 2] == l[1..|l| - 1];
      NotInLine(l[1..], needle, j);
    }
  }

  /** A line without '\r' holds no needle with a '\r'. */
  lemma {:induction false} NotInLineCR(l: string, needle: string, j: nat)
    requires '\r' !in l && j < |needle| && needle[j] == '\r'
    ensures !Contains(l, needle)
    decreases |l|
  {
    if |needle| <= |l| {
      assert l[..|needle|][j] == l[j];
      if |l| > 0 {
        NotInLineCR(l[1..], needle, j);
      }
    }
  }

  /** The lines of a text without '\r' have none either. */
  lemma {:induction false} LinesNoCR(t: string)
    requires '\r' !in t
    ensures forall k :: 0 <= k < |Lines(t)| ==> '\r' !in Lines(t)[k]
    decreases |t|
  {
    if t != "" && '\n' in t {
      var i := IndexOf(t, '\n');
      LinesNoCR(t[i + 1..]);
    }
  }

  /** A needle that no reading can find on one line: it has a '\n' before its last character,
      or a '\r' anywhere. */
  predicate Spanning(needle: string, j: nat)
  {
    (j + 1 < |needle| && needle[j] == '\n') || (j < |needle| && needle[j] == '\r')
  }

  /** `any(needle in line for line in readlines())`, on text read with universal newlines, is
      false for a needle that spans lines. */
  lemma SpanningNotFound(t: string, needle: string, j: nat)
    requires Spanning(needle, j)
    ensures !AnyContains(Lines(Universal(t)), needle)
  {
    var u := Universal(t);
    LinesShape(u);
    UniversalIdempotent(t);
    LinesNoCR(u);
    forall k | 0 <= k < |Lines(u)|
      ensures !Contains(Lines(u)[k], needle)
    {
      if needle[j] == '\n' {
        NotInLine(Lines(u)[k], needle, j);
      } else {
        NotInLineCR(Lines(u)[k], needle, j);
      }
    }
  }

  // ---------------------------------------------------------------------
  // Universal newlines

  /** What a file opened with `open(path, "r")` reads: "\r\n" and a lone "\r" both become "\n". */
  function Universal(t: string): string
    decreases |t|
  {
    if t == "" then ""
    else if t[0] == '\r' && |t| > 1 && t[1] == '\n' then "\n" + Universal(t[2..])
    else if t[0] == '\r' then "\n" + Universal(t[1..])
    else [t[0]] + Universal(t[1..])
  }

  /** Text without a carriage return reads back unchanged. */
  lemma {:induction false} UniversalNoCR(t: string)
    requires '\r' !in t
    ensures Universal(t) == t
    decreases |t|
  {
    if t != "" {
      assert t == [t[0]] + t[1..];
      UniversalNoCR(t[1..]);
    }
  }

  /** Reading leaves no carriage return, so reading what was read changes nothing. */
  lemma {:induction false} UniversalIdempotent(t: string)
    ensures '\r' !in Universal(t)
    ensures Universal(Universal(t)) == Universal(t)
    decreases |t|
  {
    if t != "" {
      if t[0] == '\r' && |t| > 1 && t[1] == '\n' {
        UniversalIdempotent(t[2..]);
      } else {
        UniversalIdempotent(t[1..]);
      }
    }
    UniversalNoCR(Universal(t));
  }

  /** Reading splits at any point that does not separate a "\r" from a following "\n". */
  lemma {:induction false} UniversalConcat(a: string, b: string)
    requires a == "" || a[|a| - 1] != '\r'
    ensures Universal(a + b) == Universal(a) + Universal(b)
    decreases |a|
  {
    if a == "" {
      assert a + b == b;
    } else if a[0] == '\r' && a[1] == '\n' {
      assert (a + b)[2..] == a[2..] + b;
      UniversalConcat(a[2..], b);
    } else {
      assert (a + b)[1..] == a[1..] + b;
      UniversalConcat(a[1..], b);
    }
  }

  /** Appending to a file only appends to what reading it gives. */
  lemma {:induction false} UniversalAppend(a: string, b: string) returns (v: string)
    ensures Universal(a + b) == Universal(a) + v
    decreases |a|
  {
    if a == "" {
      v := Universal(b);
      assert a + b == b;
    } else if |a| == 1 && a[0] == '\r' {
      assert a == "\r";
      v := LoneCR(b);
    } else {
      assert (a + b)[0] == a[0];
      if a[0] == '\r' {
        assert (a + b)[1] == a[1];
      }
      if a[0] == '\r' && a[1] == '\n' {
        DropAppend(a, b, 2);
        v := UniversalAppend(a[2..], b);
      } else {
        DropAppend(a, b, 1);
        v := UniversalAppend(a[1..], b);
      }
    }
  }

  lemma DropAppend(a: string, b: string, k: nat)
    requires k <= |a|
    ensures (a + b)[k..] == a[k..] + b
  {
  }

  /** A "\r" at the end of a file reads as "\n" whatever is appended. */
  lemma LoneCR(b: string) returns (v: string)
    ensures Universal("\r" + b) == "\n" + v
  {
    assert ("\r" + b)[1..] == b;
    if |b| > 0 && b[0] == '\n' {
      assert ("\r" + b)[2..] == b[1..];
      v := Universal(b[1..]);
    } else {
      v := Universal(b);
    }
  }

  /** Text that ends with "\n" still ends with "\n" once read. */
  lemma {:induction false} UniversalEndsLine(t: string)
    requires t != "" && t[|t| - 1] == '\n'
    ensures Universal(t) != "" && Universal(t)[|Universal(t)| - 1] == '\n'
    decreases |t|
  {
    if t[0] == '\r' {
      if |t| > 1 && t[1] == '\n' {
        if |t| > 2 { UniversalEndsLine(t[2..]); }
      } else {
        UniversalEndsLine(t[1..]);
      }
    } else if |t| > 1 {
      UniversalEndsLine(t[1..]);
    }
  }

  // ---------------------------------------------------------------------
  // Digits

  /** The character for one digit: '0'-'9', then 'a'-'f'. */
  function DigitChar(d: nat): char
    requires d < 16
  {
    if d < 10 then (48 + d) as char else (87 + d) as char
  }

  /** Minimal positional rendering of n in base 10 or 16 (lower-case letters). */
  function Digits(n: nat, base: nat): (s: string)
    requires base == 10 || base == 16
    ensures |s| >= 1
  {
    if n < base then [DigitChar(n)]
    else Digits(n / base, base) + [DigitChar(n % base)]
  }

  /** A rendering holds digits only, so never a line break or a space. */
  lemma {:induction false} DigitsNoBreak(n: nat, base: nat)
    requires base == 10 || base == 16
    ensures NoBreak(Digits(n, base)) && ' ' !in Digits(n, base)
  {
    if n >= base {
      DigitsNoBreak(n / base, base);
    }
  }

  lemma IntNoBreak(i: int)
    ensures NoBreak(IntToString(i)) && ' ' !in IntToString(i)
  {
    if i < 0 { DigitsNoBreak(-i, 10); } else { DigitsNoBreak(i, 10); }
  }

  /** The width-w rendering of n modulo base^w, zero-padded on the left (`%0wd`). */
  function Padded(n: nat, w: nat, base: nat): (s: string)
    requires base == 10 || base == 16
    ensures |s| == w
  {
    if w == 0 then "" else Padded(n / base, w - 1, base) + [DigitChar(n % base)]
  }

  /** Python `str(i)` for an int. */
  function IntToString(i: int): string
  {
    if i < 0 then "-" + Digits(-i, 10) else Digits(i, 10)
  }

  /** The digit a character stands for, if it is a digit below base. */
  function DigitValue(c: char, base: nat): (r: int)
    requires base == 10 || base == 16
    ensures -1 <= r < base
    ensures r >= 0 ==> DigitChar(r) == c
  {
    if '0' <= c <= '9' then c as int - '0' as int
    else if base == 16 && 'a' <= c <= 'f' then c as int - 'a' as int + 10
    else -1
  }

  predicate AllDigits(s: string, base: nat)
    requires base == 10 || base == 16
  {
    forall k :: 0 <= k < |s| ==> DigitValue(s[k], base) >= 0
  }

  /** The number a string of digits denotes. */
  function Number(s: string, base: nat): nat
    requires base == 10 || base == 16
    requires AllDigits(s, base)
  {
    if s == "" then 0 else Number(s[..|s| - 1], base) * base + DigitValue(s[|s| - 1], base)
  }

  lemma DigitValueOf(d: nat, base: nat)
    requires base == 10 || base == 16
    requires d < base
    ensures DigitValue(DigitChar(d), base) == d
  {
  }

  /** Reading a rendering back gives the number. */
  lemma {:induction false} DigitsValue(n: nat, base: nat)
    requires base == 10 || base == 16
    ensures AllDigits(Digits(n, base), base) && Number(Digits(n, base), base) == n
  {
    DigitValueOf(n % base, base);
    if n >= base {
      var p := Digits(n / base, base);
      assert Digits(n, base) == p + [DigitChar(n % base)];
      DigitsValue(n / base, base);
      ValueSnoc(p, DigitChar(n % base), base);
      DivMod(n, base);
    } else {
      ValueSnoc("", DigitChar(n), base);
      assert "" + [DigitChar(n)] == [DigitChar(n)];
    }
  }

  /** One more digit on the right multiplies by the base and adds the digit. */
  lemma ValueSnoc(p: string, c: char, base: nat)
    requires base == 10 || base == 16
    requires AllDigits(p, base) && DigitValue(c, base) >= 0
    ensures AllDigits(p + [c], base) && Number(p + [c], base) == Number(p, base) * base + DigitValue(c, base)
  {
    var s := p + [c];
    assert s[..|s| - 1] == p;
    assert forall k :: 0 <= k < |s| ==> s[k] == if k < |p| then p[k] else c;
  }

  lemma DivMod(n: nat, d: nat)
    requires d > 0
    ensures n / d * d + n % d == n
  {
  }

  function Pow(base: nat, w: nat): (p: nat)
    requires base >= 1
    ensures p >= 1
  {
    if w == 0 then 1 else base * Pow(base, w - 1)
  }

  /** Reading a padded rendering of a number below base^w back gives the number. */
  lemma {:induction false} PaddedValue(n: nat, w: nat, base: nat)
    requires base == 10 || base == 16
    requires n < Pow(base, w)
    ensures AllDigits(Padded(n, w, base), base)
    ensures Number(Padded(n, w, base), base) == n
  {
    if w > 0 {
      DigitValueOf(n % base, base);
      DivBelow(n, base, Pow(base, w - 1));
      PaddedValue(n / base, w - 1, base);
      ValueSnoc(Padded(n / base, w - 1, base), DigitChar(n % base), base);
      DivMod(n, base);
    } else {
      assert n == 0;
    }
  }

  lemma DivBelow(n: nat, d: nat, p: nat)
    requires d >= 1 && n < d * p
    ensures n / d < p
  {
    if n / d >= p {
      MulMonotone(p, n / d, d);
    }
  }

  lemma MulMonotone(x: nat, y: nat, d: nat)
    requires x <= y
    ensures x * d <= y * d
  {
  }
}
