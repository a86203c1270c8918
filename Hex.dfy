/** `to_hex`: the content bytes of a domain-blocking rule, one `:02x` code per
    character of the domain, separated by single spaces; and its inverse. */
module Hex {
  import opened Text
  import opened Py

  /** `f"{ord(c):02x}"`: the code point in lower-case hex, zero-padded to at least two digits. */
  function Code(c: char): string
  {
    if (c as int) < 16 then "0" + Digits(c as int, 16) else Digits(c as int, 16)
  }

  /** The codes of the characters of a domain, in order (the generator inside `to_hex`). */
  function Codes(d: string): (cs: seq<string>)
    ensures |cs| == |d|
  {
    if d == "" then [] else [Code(d[0])] + Codes(d[1..])
  }

  /** `to_hex(domain)`: the codes joined by single spaces. */
  function ToHex(d: string): (h: string)
    ensures h == "" <==> d == ""
  {
    if d == "" then ""
    else
      CodeShape(d[0]);
      JoinNonEmpty(Codes(d), " ");
      Join(Codes(d), " ")
  }

  /** Reading one code back: a non-empty run of lower-case hex digits naming a character. */
  function DecodeCode(h: string): Option<char>
  {
    if h != "" && AllDigits(h, 16) && IsScalar(Number(h, 16)) then Some(Number(h, 16) as char) else None
  }

  predicate IsScalar(n: nat) {
    n < 0xD800 || 0xE000 <= n < 0x11_0000
  }

  function DecodeCodes(parts: seq<string>): Option<string>
  {
    if parts == [] then Some("")
    else match (DecodeCode(parts[0]), DecodeCodes(parts[1..]))
      case (Some(c), Some(rest)) => Some([c] + rest)
      case _ => None
  }

  /** The inverse of `to_hex`: split on spaces and read every code back. */
  function FromHex(h: string): Option<string>
  {
    if h == "" then Some("") else DecodeCodes(Split(h, ' '))
  }

  // ---------------------------------------------------------------------
  // Properties

  /** Every code is a space-free run of lower-case hex digits, at least two long, denoting the code point;
      below 256 it is exactly two digits. */
  lemma CodeShape(c: char)
    ensures |Code(c)| >= 2 && ' ' !in Code(c)
    ensures AllDigits(Code(c), 16) && Number(Code(c), 16) == c as int
    ensures (c as int) < 256 ==> |Code(c)| == 2
  {
    var n := c as int;
    DigitsValue(n, 16);
    if n < 16 {
      ValueSnoc("", '0', 16);
      assert "" + ['0'] == "0";
      ValueSnoc("0", DigitChar(n), 16);
      assert Code(c) == "0" + [DigitChar(n)];
    } else {
      DigitsAtLeastTwo(n);
    }
  }

  lemma DigitsAtLeastTwo(n: nat)
    requires n >= 16
    ensures |Digits(n, 16)| >= 2 && (n < 256 ==> |Digits(n, 16)| == 2)
  {
    assert Digits(n, 16) == Digits(n / 16, 16) + [DigitChar(n % 16)];
  }

  lemma JoinNonEmpty(parts: seq<string>, sep: string)
    requires |parts| >= 1 && parts[0] != ""
    ensures Join(parts, sep) != ""
  {
  }

  lemma CodeDecodes(c: char)
    ensures DecodeCode(Code(c)) == Some(c)
  {
    CodeShape(c);
  }

  /** Every code decodes to the character it came from. */
  lemma {:induction false} CodesDecode(d: string)
    ensures DecodeCodes(Codes(d)) == Some(d)
  {
    if d != "" {
      CodeDecodes(d[0]);
      assert Codes(d)[1..] == Codes(d[1..]);
      CodesDecode(d[1..]);
      assert [d[0]] + d[1..] == d;
    }
  }

  /** Splitting the output on spaces gives back the individual codes. */
  lemma {:induction false} HexSplit(d: string)
    requires d != ""
    ensures Split(ToHex(d), ' ') == Codes(d)
  {
    forall k | 0 <= k < |d|
      ensures ' ' !in Codes(d)[k]
    {
      CodeOf(d, k);
      CodeShape(d[k]);
    }
    SplitJoin(Codes(d), ' ');
  }

  lemma {:induction false} CodeOf(d: string, k: nat)
    requires k < |d|
    ensures Codes(d)[k] == Code(d[k])
  {
    if k > 0 {
      CodeOf(d[1..], k - 1);
    }
  }

  /** Decoding the output of `to_hex` gives back the domain. */
  lemma HexRoundTrip(d: string)
    ensures FromHex(ToHex(d)) == Some(d)
  {
    if d != "" {
      HexSplit(d);
      CodesDecode(d);
    }
  }

  /** Text made of lower-case hex digits and spaces. */
  predicate HexText(s: string) {
    forall k :: 0 <= k < |s| ==> s[k] == ' ' || DigitValue(s[k], 16) >= 0
  }

  lemma HexTextConcat(a: string, b: string)
    requires HexText(a) && HexText(b)
    ensures HexText(a + b)
  {
    forall k | 0 <= k < |a + b|
      ensures (a + b)[k] == ' ' || DigitValue((a + b)[k], 16) >= 0
    {
      if k >= |a| {
        assert (a + b)[k] == b[k - |a|];
      }
    }
  }

  lemma {:induction false} HexTextJoin(parts: seq<string>)
    requires forall k :: 0 <= k < |parts| ==> HexText(parts[k])
    ensures HexText(Join(parts, " "))
  {
    if |parts| > 1 {
      HexTextJoin(parts[1..]);
      HexTextConcat(parts[0], " ");
      HexTextConcat(parts[0] + " ", Join(parts[1..], " "));
    }
  }

  /** The output of `to_hex` holds nothing but lower-case hex digits and spaces,
      so in particular no line break, quote or pipe. */
  lemma HexAlphabet(d: string)
    ensures HexText(ToHex(d))
    ensures NoBreak(ToHex(d)) && '"' !in ToHex(d) && '|' !in ToHex(d)
  {
    forall k | 0 <= k < |d|
      ensures HexText(Codes(d)[k])
    {
      CodeOf(d, k);
      CodeShape(d[k]);
    }
    HexTextJoin(Codes(d));
  }

  /** Different domains give different content strings. */
  lemma HexInjective(a: string, b: string)
    requires ToHex(a) == ToHex(b)
    ensures a == b
  {
    HexRoundTrip(a);
    HexRoundTrip(b);
  }
}
