/** The string functions the saved-record parsers use, and what they undo. */
module Text {

  /** unicode.IsSpace. */
  predicate IsSpace(c: char) {
    || c in " \t\n\r" || c == 0x0b as char || c == 0x0c as char || c == 0x85 as char || c == 0xa0 as char
    || c == 0x1680 as char || 0x2000 as char <= c <= 0x200a as char || c == 0x2028 as char || c == 0x2029 as char
    || c == 0x202f as char || c == 0x205f as char || c == 0x3000 as char
  }

  predicate Blank(s: string) { forall c | c in s :: IsSpace(c) }

  function TrimLeft(s: string): string {
    if s != "" && IsSpace(s[0]) then TrimLeft(s[1..]) else s
  }

  function TrimRight(s: string): string {
    if s != "" && IsSpace(s[|s| - 1]) then TrimRight(s[..|s| - 1]) else s
  }

  /** strings.TrimSpace. */
  function Trim(s: string): string { TrimRight(TrimLeft(s)) }

  lemma {:induction false} TrimLeftKeeps(s: string, c: char)
    ensures c in TrimLeft(s) ==> c in s
    ensures c in s && !IsSpace(c) ==> c in TrimLeft(s)
  {
    if s != "" && IsSpace(s[0]) {
      assert s == [s[0]] + s[1..];
      TrimLeftKeeps(s[1..], c);
    }
  }

  lemma {:induction false} TrimRightKeeps(s: string, c: char)
    ensures c in TrimRight(s) ==> c in s
    ensures c in s && !IsSpace(c) ==> c in TrimRight(s)
  {
    if s != "" && IsSpace(s[|s| - 1]) {
      assert s == s[..|s| - 1] + [s[|s| - 1]];
      TrimRightKeeps(s[..|s| - 1], c);
    }
  }

  /** Trimming loses spaces and nothing else. */
  lemma TrimKeeps(s: string, c: char)
    ensures c in Trim(s) ==> c in s
    ensures c in s && !IsSpace(c) ==> c in Trim(s)
  {
    TrimLeftKeeps(s, c);
    TrimRightKeeps(TrimLeft(s), c);
  }

  lemma {:induction false} TrimLeftBlank(s: string)
    requires Blank(s)
    ensures TrimLeft(s) == ""
  {
    if s != "" {
      assert s[0] in s && forall c | c in s[1..] :: c in s;
      TrimLeftBlank(s[1..]);
    }
  }

  lemma BlankTrims(s: string)
    ensures Trim(s) == "" <==> Blank(s)
  {
    if Blank(s) {
      TrimLeftBlank(s);
    } else {
      var c :| c in s && !IsSpace(c);
      TrimKeeps(s, c);
    }
  }

  /** A line with no space at either end is left alone. */
  lemma TrimClean(s: string)
    requires s != "" && !IsSpace(s[0]) && !IsSpace(s[|s| - 1])
    ensures Trim(s) == s
  {
  }

  // ----- splitting and joining -----

  function IndexOf(s: string, c: char): (i: nat)
    requires c in s
    ensures i < |s| && s[i] == c && c !in s[..i]
  {
    if s[0] == c then 0 else 1 + IndexOf(s[1..], c)
  }

  /** strings.Split on one character. */
  function Split(s: string, c: char): (r: seq<string>)
    ensures r != []
    decreases |s|
  {
    if c in s then [s[..IndexOf(s, c)]] + Split(s[IndexOf(s, c) + 1..], c) else [s]
  }

  /** strings.Join with one character. */
  function Join(lines: seq<string>, c: char): string {
    if lines == [] then "" else if |lines| == 1 then lines[0] else lines[0] + [c] + Join(lines[1..], c)
  }

  lemma IndexAfter(s: string, c: char, rest: string)
    requires c !in s
    ensures c in s + [c] + rest && IndexOf(s + [c] + rest, c) == |s|
  {
    var t := s + [c] + rest;
    assert t[|s|] == c;
    var i := IndexOf(t, c);
    assert t[..|s|] == s;
  }

  /** Splitting undoes joining, as long as no part holds the separator. */
  lemma {:induction false} SplitJoin(lines: seq<string>, c: char)
    requires lines != [] && forall l | l in lines :: c !in l
    ensures Split(Join(lines, c), c) == lines
  {
    assert lines[0] in lines;
    if |lines| > 1 {
      var rest := Join(lines[1..], c);
      IndexAfter(lines[0], c, rest);
      var s := lines[0] + [c] + rest;
      assert s[..|lines[0]|] == lines[0] && s[|lines[0]| + 1..] == rest;
      SplitJoin(lines[1..], c);
    }
  }

  /** The parts of a split are made of the text, and hold all of it. */
  lemma {:induction false} SplitParts(s: string, c: char, x: char)
    requires x != c
    ensures (exists l :: l in Split(s, c) && x in l) <==> x in s
    decreases |s|
  {
    if c in s {
      var i := IndexOf(s, c);
      var rest := s[i + 1..];
      SplitParts(rest, c, x);
      assert s == s[..i] + [c] + rest;
      assert Split(s, c) == [s[..i]] + Split(rest, c);
      if x in s[..i] {
        assert s[..i] in Split(s, c);
      }
    }
  }

  /** strings.Cut at the first '='. */
  function KeyPart(f: string): string { if '=' in f then f[..IndexOf(f, '=')] else f }
  function ValuePart(f: string): string { if '=' in f then f[IndexOf(f, '=') + 1..] else "" }

  lemma CutField(k: string, v: string)
    requires '=' !in k
    ensures var f := k + "=" + v; '=' in f && KeyPart(f) == k && ValuePart(f) == v
  {
    IndexAfter(k, '=', v);
    assert k + ['='] + v == k + "=" + v;
  }

  // ----- numbers -----

  function Digit(d: nat): char
    requires d < 10
  {
    '0' + d as char
  }

  predicate IsDigit(c: char) { '0' <= c <= '9' }

  function Decimal(n: nat): string {
    if n < 10 then [Digit(n)] else Decimal(n / 10) + [Digit(n % 10)]
  }

  function Hex2(n: nat): string
    requires n < 256
  {
    [HexDigit(n / 16), HexDigit(n % 16)]
  }

  function HexDigit(d: nat): char
    requires d < 16
  {
    if d < 10 then '0' + d as char else 'a' + (d - 10) as char
  }

  datatype Num = Bad | Val(n: nat)

  /** A decimal number, no sign. */
  function ParseDec(s: string): Num {
    if s == "" then Bad
    else if !IsDigit(s[|s| - 1]) then Bad
    else if |s| == 1 then Val((s[0] - '0') as nat)
    else
      var hi := ParseDec(s[..|s| - 1]);
      if hi == Bad then Bad else Val(hi.n * 10 + (s[|s| - 1] - '0') as nat)
  }

  function ParseHexDigit(c: char): Num {
    if IsDigit(c) then Val((c - '0') as nat)
    else if 'a' <= c <= 'f' then Val(10 + (c - 'a') as nat)
    else if 'A' <= c <= 'F' then Val(10 + (c - 'A') as nat)
    else Bad
  }

  /** A hexadecimal number. */
  function ParseHex(s: string): Num {
    if s == "" then Bad
    else
      var lo := ParseHexDigit(s[|s| - 1]);
      if lo == Bad then Bad
      else if |s| == 1 then lo
      else
        var hi := ParseHex(s[..|s| - 1]);
        if hi == Bad then Bad else Val(hi.n * 16 + lo.n)
  }

  datatype Signed = BadInt | Int(i: int)

  /** strconv.Atoi: an optional sign, digits, and 64 bits. */
  function Atoi(s: string): Signed {
    var neg := s != "" && s[0] == '-';
    var digits := if s != "" && (s[0] == '-' || s[0] == '+') then s[1..] else s;
    var n := ParseDec(digits);
    if n == Bad || n.n > 0x7fff_ffff_ffff_ffff + (if neg then 1 else 0) then BadInt
    else
      var i: int := n.n;
      Int(if neg then -i else i)
  }

  lemma {:induction false} DecimalParses(n: nat)
    ensures ParseDec(Decimal(n)) == Val(n)
    ensures forall c | c in Decimal(n) :: IsDigit(c)
  {
    if n >= 10 {
      DecimalParses(n / 10);
      assert Decimal(n)[..|Decimal(n)| - 1] == Decimal(n / 10);
    }
  }

  lemma HexParses(n: nat)
    requires n < 256
    ensures ParseHex(Hex2(n)) == Val(n)
  {
    assert Hex2(n)[..1] == [HexDigit(n / 16)];
    assert ParseHex([HexDigit(n / 16)]) == Val(n / 16);
  }

  lemma AtoiDecimal(n: nat)
    requires n <= 0x7fff_ffff_ffff_ffff
    ensures Atoi(Decimal(n)) == Int(n)
  {
    DecimalParses(n);
    assert Decimal(n) != "" && Decimal(n)[0] in Decimal(n);
  }
}
