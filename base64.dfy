/**
 * The base64 codec behind the browser's `btoa` and `atob`: encoding with the
 * standard alphabet and `=` padding of section 4 of RFC 4648, and decoding by
 * the "forgiving-base64 decode" of the WHATWG Infra standard, which is what
 * `atob` runs (ASCII whitespace is skipped, padding is optional, a length of
 * 1 modulo 4 or a character outside the alphabet is an InvalidCharacterError).
 *
 * Binary strings (what `btoa` takes and `atob` gives back) are strings whose
 * every character code is below 256.
 */
module Base64 {
  import opened Wrappers

  type Byte = b: int | 0 <= b < 256
  type Sextet = v: int | 0 <= v < 64

  /** A character of the alphabet of table 1 of RFC 4648, section 4. */
  predicate IsSymbol(c: char)
  {
    'A' <= c <= 'Z' || 'a' <= c <= 'z' || '0' <= c <= '9' || c == '+' || c == '/'
  }

  /** The 6-bit value a symbol stands for. */
  function Value(c: char): (v: Sextet)
    requires IsSymbol(c)
  {
    if 'A' <= c <= 'Z' then c as int - 'A' as int
    else if 'a' <= c <= 'z' then c as int - 'a' as int + 26
    else if '0' <= c <= '9' then c as int - '0' as int + 52
    else if c == '+' then 62
    else 63
  }

  /** The symbol that encodes a 6-bit value; Value undoes it. */
  function Symbol(v: Sextet): (c: char)
    ensures IsSymbol(c) && Value(c) == v
  {
    if v < 26 then ('A' as int + v) as char
    else if v < 52 then ('a' as int + (v - 26)) as char
    else if v < 62 then ('0' as int + (v - 52)) as char
    else if v == 62 then '+'
    else '/'
  }

  lemma SymbolOfValue(c: char)
    requires IsSymbol(c)
    ensures Symbol(Value(c)) == c
  {
  }

  predicate AllSymbols(s: string)
  {
    forall i :: 0 <= i < |s| ==> IsSymbol(s[i])
  }

  /**
   * The 6-bit groups of a byte sequence, most significant bits first: three
   * bytes give four sextets, a final single byte two and a final pair three
   * (the unused low bits of the last sextet are zero).
   */
  function Sextets(b: seq<Byte>): (v: seq<Sextet>)
    decreases |b|
  {
    if |b| == 0 then []
    else if |b| == 1 then [b[0] / 4, b[0] % 4 * 16]
    else if |b| == 2 then [b[0] / 4, b[0] % 4 * 16 + b[1] / 16, b[1] % 16 * 4]
    else [b[0] / 4, b[0] % 4 * 16 + b[1] / 16, b[1] % 16 * 4 + b[2] / 64, b[2] % 64] + Sextets(b[3..])
  }

  /** Reassembles bytes from sextets; the leftover low bits of a final
      partial group are discarded. */
  function Octets(v: seq<Sextet>): (b: seq<Byte>)
    requires |v| % 4 != 1
    decreases |v|
  {
    if |v| == 0 then []
    else
      var b0: Byte := v[0] as int * 4 + v[1] / 16;
      if |v| == 2 then [b0]
      else
        var b1: Byte := v[1] as int % 16 * 16 + v[2] / 4;
        if |v| == 3 then [b0, b1]
        else
          var b2: Byte := v[2] as int % 4 * 64 + v[3];
          [b0, b1, b2] + Octets(v[4..])
  }

  function Symbols(v: seq<Sextet>): (s: string)
    ensures |s| == |v| && AllSymbols(s)
  {
    seq(|v|, i requires 0 <= i < |v| => Symbol(v[i]))
  }

  function Values(s: string): (v: seq<Sextet>)
    requires AllSymbols(s)
    ensures |v| == |s|
  {
    seq(|s|, i requires 0 <= i < |s| => Value(s[i]))
  }

  /** The encoding without its trailing padding. */
  function EncodeUnpadded(b: seq<Byte>): string
  {
    Symbols(Sextets(b))
  }

  /** The `=` characters that complete the last group of four. */
  function Padding(n: nat): string
  {
    if n % 3 == 1 then "==" else if n % 3 == 2 then "=" else ""
  }

  /** Base64 with padding, section 4 of RFC 4648. */
  function Encode(b: seq<Byte>): (s: string)
    ensures |s| == 4 * ((|b| + 2) / 3)
    ensures forall i :: 0 <= i < |s| ==> IsSymbol(s[i]) || s[i] == '='
  {
    SextetsLength(b);
    EncodeUnpadded(b) + Padding(|b|)
  }

  /** Four sextets per whole group of three bytes, and one more than the
      number of leftover bytes for a final partial group. */
  lemma {:induction false} SextetsLength(b: seq<Byte>)
    ensures |Sextets(b)| == 4 * (|b| / 3) + (if |b| % 3 == 0 then 0 else |b| % 3 + 1)
    decreases |b|
  {
    if |b| >= 3 {
      SextetsLength(b[3..]);
    }
  }

  /** Decodes a padding-free run of symbols. */
  function DecodeUnpadded(s: string): seq<Byte>
    requires |s| % 4 != 1 && AllSymbols(s)
  {
    Octets(Values(s))
  }

  /** TAB, LF, FF, CR and SPACE. */
  predicate IsAsciiWhitespace(c: char)
  {
    c == '\t' || c == '\n' || c as int == 12 || c == '\r' || c == ' '
  }

  function RemoveWhitespace(s: string): (t: string)
    ensures forall i :: 0 <= i < |t| ==> !IsAsciiWhitespace(t[i])
    ensures |t| <= |s|
  {
    if s == [] then []
    else if IsAsciiWhitespace(s[0]) then RemoveWhitespace(s[1..])
    else [s[0]] + RemoveWhitespace(s[1..])
  }

  /** When the length is a multiple of four, one or two trailing `=` go. */
  function StripPadding(t: string): string
  {
    if |t| % 4 == 0 && |t| >= 2 && t[|t| - 1] == '=' && t[|t| - 2] == '=' then t[..|t| - 2]
    else if |t| % 4 == 0 && |t| >= 1 && t[|t| - 1] == '=' then t[..|t| - 1]
    else t
  }

  /** The forgiving-base64 decode that `atob` performs; None is the
      InvalidCharacterError it throws. */
  function ForgivingDecode(s: string): (r: Option<seq<Byte>>)
    ensures r.Some? <==>
      (var t := StripPadding(RemoveWhitespace(s)); |t| % 4 != 1 && AllSymbols(t))
  {
    var t := StripPadding(RemoveWhitespace(s));
    if |t| % 4 == 1 || !AllSymbols(t) then None
    else Some(DecodeUnpadded(t))
  }

  /** Every character code of a binary string fits in a byte. */
  predicate IsBinary(s: string)
  {
    forall i :: 0 <= i < |s| ==> s[i] as int < 256
  }

  /** The binary string whose character codes are the given bytes
      (`String.fromCharCode` per byte). */
  function BinaryString(b: seq<Byte>): (s: string)
    ensures |s| == |b| && IsBinary(s)
    ensures forall i :: 0 <= i < |b| ==> s[i] as int == b[i]
  {
    seq(|b|, i requires 0 <= i < |b| => b[i] as char)
  }

  /** The character codes of a binary string (`charCodeAt` per index). */
  function CharCodes(s: string): (b: seq<Byte>)
    requires IsBinary(s)
    ensures |b| == |s|
    ensures forall i :: 0 <= i < |s| ==> b[i] == s[i] as int
  {
    seq(|s|, i requires 0 <= i < |s| => s[i] as int)
  }

  /** `btoa`: the base64 text of a binary string. */
  function Btoa(s: string): (t: string)
    requires IsBinary(s)
    ensures |t| == 4 * ((|s| + 2) / 3)
    ensures forall i :: 0 <= i < |t| ==> IsSymbol(t[i]) || t[i] == '='
  {
    Encode(CharCodes(s))
  }

  /** `atob`: the binary string a base64 text stands for, or None where
      `atob` throws. */
  function Atob(s: string): (r: Option<string>)
    ensures r.Some? <==> ForgivingDecode(s).Some?
    ensures r.Some? ==> IsBinary(r.value) && |r.value| == |ForgivingDecode(s).value|
  {
    match ForgivingDecode(s)
    case None => None
    case Some(b) => Some(BinaryString(b))
  }

  /** The character codes of what `atob` returns are exactly the bytes
      the forgiving decode yields. */
  lemma AtobCodes(s: string)
    ensures Atob(s).Some? ==> CharCodes(Atob(s).value) == ForgivingDecode(s).value
  {
    if Atob(s).Some? {
      var b := ForgivingDecode(s).value;
      assert CharCodes(BinaryString(b)) == b;
    }
  }

  // ---------------------------------------------------------------------
  // Round trip

  /** Reassembling the sextets of a byte sequence gives the bytes back. */
  lemma {:induction false} OctetsOfSextets(b: seq<Byte>)
    ensures |Sextets(b)| % 4 != 1
    ensures Octets(Sextets(b)) == b
    decreases |b|
  {
    if |b| == 0 {
      assert Sextets(b) == [];
    } else if 1 <= |b| <= 2 {
      OctetsOfLastGroup(b);
    } else if |b| >= 3 {
      OctetsOfSextets(b[3..]);
      OctetsOfFirstGroup(b);
      assert b == b[..3] + b[3..];
    }
  }

  lemma OctetsOfLastGroup(b: seq<Byte>)
    requires 1 <= |b| <= 2
    ensures |Sextets(b)| % 4 != 1 && Octets(Sextets(b)) == b
  {
    var v := Sextets(b);
    if |b| == 1 {
      assert v == [b[0] / 4, b[0] % 4 * 16];
    } else {
      assert v == [b[0] / 4, b[0] % 4 * 16 + b[1] / 16, b[1] % 16 * 4];
      GroupOfTwo(b[0], b[1]);
    }
  }

  lemma OctetsOfFirstGroup(b: seq<Byte>)
    requires |b| >= 3 && |Sextets(b[3..])| % 4 != 1
    ensures |Sextets(b)| % 4 != 1
    ensures Octets(Sextets(b)) == b[..3] + Octets(Sextets(b[3..]))
  {
    SextetsStep(b);
    OctetsAppend(Sextets(b[..3]), Sextets(b[3..]));
    GroupOfThree(b[..3]);
  }

  /** The sextets of a long sequence are those of its first three bytes
      followed by those of the rest. */
  lemma SextetsStep(b: seq<Byte>)
    requires |b| >= 3
    ensures |Sextets(b[..3])| == 4
    ensures Sextets(b) == Sextets(b[..3]) + Sextets(b[3..])
  {
    var g := b[..3];
    assert g[3..] == [];
    assert g[0] == b[0] && g[1] == b[1] && g[2] == b[2];
  }

  /** A whole group of four sextets decodes on its own. */
  lemma OctetsAppend(g: seq<Sextet>, rest: seq<Sextet>)
    requires |g| == 4 && |rest| % 4 != 1
    ensures |g + rest| % 4 != 1
    ensures Octets(g + rest) == Octets(g) + Octets(rest)
  {
    var v := g + rest;
    assert v[4..] == rest;
    assert g[4..] == [];
    assert v[0] == g[0] && v[1] == g[1] && v[2] == g[2] && v[3] == g[3];
  }

  lemma GroupOfTwo(b0: Byte, b1: Byte)
    ensures var v1 := b0 % 4 * 16 + b1 / 16;
      b0 / 4 * 4 + v1 / 16 == b0 && v1 % 16 * 16 + (b1 % 16 * 4) / 4 == b1
  {
    var v1 := b0 % 4 * 16 + b1 / 16;
    assert v1 / 16 == b0 % 4 && v1 % 16 == b1 / 16;
  }

  /** Three bytes survive the trip through four sextets. */
  lemma GroupOfThree(g: seq<Byte>)
    requires |g| == 3
    ensures |Sextets(g)| == 4 && Octets(Sextets(g)) == g
  {
    assert g[3..] == [];
    assert Sextets(g[3..]) == [];
    var v := Sextets(g);
    assert v == [g[0] / 4, g[0] % 4 * 16 + g[1] / 16, g[1] % 16 * 4 + g[2] / 64, g[2] % 64];
    assert v[4..] == [];
    ThreeBytes(g[0], g[1], g[2]);
    assert Octets(v) == [g[0], g[1], g[2]];
  }

  lemma ThreeBytes(b0: Byte, b1: Byte, b2: Byte)
    ensures var v1 := b0 % 4 * 16 + b1 / 16;
            var v2 := b1 % 16 * 4 + b2 / 64;
      b0 / 4 * 4 + v1 / 16 == b0 && v1 % 16 * 16 + v2 / 4 == b1 && v2 % 4 * 64 + b2 % 64 == b2
  {
    var v1 := b0 % 4 * 16 + b1 / 16;
    var v2 := b1 % 16 * 4 + b2 / 64;
    assert v1 / 16 == b0 % 4 && v1 % 16 == b1 / 16;
    assert v2 / 4 == b1 % 16 && v2 % 4 == b2 / 64;
  }

  lemma DecodeEncodeUnpadded(b: seq<Byte>)
    ensures |EncodeUnpadded(b)| % 4 != 1
    ensures DecodeUnpadded(EncodeUnpadded(b)) == b
  {
    var v := Sextets(b);
    OctetsOfSextets(b);
    assert Values(Symbols(v)) == v;
  }

  lemma {:induction false} RemoveWhitespaceNoop(s: string)
    requires forall i :: 0 <= i < |s| ==> !IsAsciiWhitespace(s[i])
    ensures RemoveWhitespace(s) == s
    decreases |s|
  {
    if s != [] {
      RemoveWhitespaceNoop(s[1..]);
      assert s == [s[0]] + s[1..];
    }
  }

  lemma StripPaddingOf(u: string, n: nat)
    requires AllSymbols(u)
    requires |u| % 4 == (if n % 3 == 0 then 0 else n % 3 + 1)
    ensures StripPadding(u + Padding(n)) == u
  {
    var s := u + Padding(n);
    if n % 3 == 0 {
      assert s == u;
      assert |u| > 0 ==> IsSymbol(u[|u| - 1]);
    } else if n % 3 == 1 {
      assert |s| % 4 == 0 && s[|s| - 1] == '=' && s[|s| - 2] == '=';
      assert s[..|s| - 2] == u;
    } else {
      assert |s| % 4 == 0 && s[|s| - 1] == '=';
      assert s[|s| - 2] == u[|u| - 1] && IsSymbol(u[|u| - 1]);
      assert s[..|s| - 1] == u;
    }
  }

  /** `atob` recovers every byte sequence from its padded encoding. */
  lemma DecodeEncode(b: seq<Byte>)
    ensures ForgivingDecode(Encode(b)) == Some(b)
  {
    var u := EncodeUnpadded(b);
    var s := Encode(b);
    assert s == u + Padding(|b|);
    RemoveWhitespaceNoop(s);
    SextetsLength(b);
    StripPaddingOf(u, |b|);
    assert StripPadding(RemoveWhitespace(s)) == u;
    DecodeEncodeUnpadded(b);
  }

  /** `atob(btoa(s))` gives back every binary string. */
  lemma AtobBtoa(s: string)
    requires IsBinary(s)
    ensures Atob(Btoa(s)) == Some(s)
  {
    DecodeEncode(CharCodes(s));
    assert BinaryString(CharCodes(s)) == s;
  }

  /** A stripped, whitespace-free text of length 1 modulo 4 is refused. */
  lemma RejectsLengthOneModFour(s: string)
    requires forall i :: 0 <= i < |s| ==> IsSymbol(s[i])
    requires |s| % 4 == 1
    ensures Atob(s) == None
  {
    RemoveWhitespaceNoop(s);
  }
}
