/** The browser's `btoa` and `atob`: the Base64 encoding of section 4 of RFC 4648, and the
    "forgiving-base64 decode" of the WHATWG Infra standard that `atob` runs. */
module Base64 {
  import opened Wrappers

  type Byte = x: int | 0 <= x < 256

  /** The 64 characters of the Base64 alphabet (Table 1 of RFC 4648). */
  predicate IsAlphabetChar(c: char) {
    'A' <= c <= 'Z' || 'a' <= c <= 'z' || '0' <= c <= '9' || c == '+' || c == '/'
  }

  /** The character that encodes the 6-bit value `v`. */
  function CharOf(v: int): (c: char)
    requires 0 <= v < 64
    ensures IsAlphabetChar(c)
  {
    if v < 26 then ('A' as int + v) as char
    else if v < 52 then ('a' as int + (v - 26)) as char
    else if v < 62 then ('0' as int + (v - 52)) as char
    else if v == 62 then '+'
    else '/'
  }

  /** The 6-bit value an alphabet character encodes. */
  function ValueOf(c: char): (v: int)
    requires IsAlphabetChar(c)
    ensures 0 <= v < 64
  {
    if 'A' <= c <= 'Z' then c as int - 'A' as int
    else if 'a' <= c <= 'z' then c as int - 'a' as int + 26
    else if '0' <= c <= '9' then c as int - '0' as int + 52
    else if c == '+' then 62
    else 63
  }

  /** `ValueOf` reads back the character `CharOf` gives a 6-bit value. */
  lemma ValueOfCharOf(v: int)
    requires 0 <= v < 64
    ensures ValueOf(CharOf(v)) == v
  {
  }

  predicate AllAlphabet(s: string) {
    forall i :: 0 <= i < |s| ==> IsAlphabetChar(s[i])
  }

  /** The number of characters a final group of `k` bytes (k < 3) takes before padding. */
  function TailChars(k: nat): nat
    requires k < 3
  {
    if k == 0 then 0 else k + 1
  }

  /** The four characters of a complete group of three bytes: each holds six of the
      group's 24 bits, most significant first. */
  function EncodeQuantum(b0: Byte, b1: Byte, b2: Byte): (r: string)
    ensures |r| == 4 && AllAlphabet(r)
  {
    [CharOf(b0 / 4), CharOf(b0 % 4 * 16 + b1 / 16), CharOf(b1 % 16 * 4 + b2 / 64), CharOf(b2 % 64)]
  }

  /** The characters of a final group of one or two bytes, before padding; the bits left
      over in the last character are zero. */
  function EncodeTail(b: seq<Byte>): (r: string)
    requires |b| < 3
    ensures |r| == TailChars(|b|) && AllAlphabet(r)
  {
    if |b| == 0 then []
    else if |b| == 1 then [CharOf(b[0] / 4), CharOf(b[0] % 4 * 16)]
    else [CharOf(b[0] / 4), CharOf(b[0] % 4 * 16 + b[1] / 16), CharOf(b[1] % 16 * 4)]
  }

  /** The encoding without its padding. */
  function EncodeBody(b: seq<Byte>): (r: string)
    ensures |r| == 4 * (|b| / 3) + TailChars(|b| % 3)
    ensures AllAlphabet(r)
    decreases |b|
  {
    if |b| < 3 then EncodeTail(b) else EncodeQuantum(b[0], b[1], b[2]) + EncodeBody(b[3..])
  }

  /** The `=` characters that complete the final four-character quantum. */
  function Padding(n: nat): string {
    if n % 3 == 1 then "==" else if n % 3 == 2 then "=" else ""
  }

  /** A well-formed Base64 text: whole quanta of four characters, alphabet characters
      only, except for one or two `=` at the very end. */
  predicate IsWellFormed(r: string) {
    && |r| % 4 == 0
    && (forall i :: 0 <= i < |r| ==> IsAlphabetChar(r[i]) || (r[i] == '=' && i >= |r| - 2))
    && (|r| >= 2 && r[|r| - 2] == '=' ==> r[|r| - 1] == '=')
  }

  /** Base64 encoding of a byte sequence, with padding. */
  function Encode(b: seq<Byte>): string {
    EncodeBody(b) + Padding(|b|)
  }

  /** The encoding has four characters per started group of three bytes. */
  lemma EncodeLength(b: seq<Byte>)
    ensures |Encode(b)| == 4 * ((|b| + 2) / 3)
  {
    var groups, rem := |b| / 3, |b| % 3;
    assert |b| == 3 * groups + rem;
    assert |Padding(|b|)| == if rem == 0 then 0 else 3 - rem;
    if rem == 0 {
      assert (|b| + 2) / 3 == groups;
    } else {
      assert (|b| + 2) / 3 == groups + 1;
    }
  }

  /** The encoding is well-formed Base64 of four characters per started group of three
      bytes. */
  lemma EncodeIsWellFormed(b: seq<Byte>)
    ensures IsWellFormed(Encode(b))
    ensures |Encode(b)| == 4 * ((|b| + 2) / 3)
  {
    var body := EncodeBody(b);
    var pad := Padding(|b|);
    var r := body + pad;
    EncodeLength(b);
    QuantaRemainder((|b| + 2) / 3, 0);
    forall i | 0 <= i < |r| ensures IsAlphabetChar(r[i]) || (r[i] == '=' && i >= |r| - 2) {
      if i < |body| {
        assert r[i] == body[i];
      } else {
        assert r[i] == pad[i - |body|];
      }
    }
    if |r| >= 2 && r[|r| - 2] == '=' {
      assert |b| % 3 == 1;
    }
  }

  /** The white space that `atob` ignores anywhere in its input. */
  predicate IsAsciiWhitespace(c: char) {
    c == '\t' || c == '\n' || c == '\U{0C}' || c == '\r' || c == ' '
  }

  /** The input of `atob` with its white space removed. */
  function RemoveAsciiWhitespace(s: string): string
    decreases |s|
  {
    if s == [] then []
    else if IsAsciiWhitespace(s[0]) then RemoveAsciiWhitespace(s[1..])
    else [s[0]] + RemoveAsciiWhitespace(s[1..])
  }

  /** The result holds no white space, keeps every other character and adds none, and
      text without white space is left as it is. */
  lemma {:induction false} RemoveAsciiWhitespaceSpec(s: string)
    ensures var r := RemoveAsciiWhitespace(s);
      && (forall i :: 0 <= i < |r| ==> !IsAsciiWhitespace(r[i]))
      && (forall c :: c in r ==> c in s)
      && (forall c :: c in s && !IsAsciiWhitespace(c) ==> c in r)
      && ((forall i :: 0 <= i < |s| ==> !IsAsciiWhitespace(s[i])) ==> r == s)
    decreases |s|
  {
    if s != [] {
      RemoveAsciiWhitespaceSpec(s[1..]);
      assert s == [s[0]] + s[1..];
      assert forall i :: 0 <= i < |s| - 1 ==> s[1..][i] == s[i + 1];
    }
  }

  /** A single character is dropped when it is white space and kept otherwise. */
  lemma RemoveAsciiWhitespaceSingle(c: char)
    ensures RemoveAsciiWhitespace([c]) == if IsAsciiWhitespace(c) then [] else [c]
  {
    assert [c][1..] == [];
  }

  /** Removing white space works piecewise, so the characters kept stay in their order
      and keep their number of occurrences. */
  lemma {:induction false} RemoveAsciiWhitespaceAppend(a: string, b: string)
    ensures RemoveAsciiWhitespace(a + b) == RemoveAsciiWhitespace(a) + RemoveAsciiWhitespace(b)
    decreases |a|
  {
    if a == [] {
      assert a + b == b;
    } else {
      var ab := a + b;
      assert ab[0] == a[0] && ab[1..] == a[1..] + b;
      var head := if IsAsciiWhitespace(a[0]) then [] else [a[0]];
      calc {
        RemoveAsciiWhitespace(ab);
        head + RemoveAsciiWhitespace(a[1..] + b);
        { RemoveAsciiWhitespaceAppend(a[1..], b); }
        head + (RemoveAsciiWhitespace(a[1..]) + RemoveAsciiWhitespace(b));
        (head + RemoveAsciiWhitespace(a[1..])) + RemoveAsciiWhitespace(b);
        RemoveAsciiWhitespace(a) + RemoveAsciiWhitespace(b);
      }
    }
  }

  /** Drops one or two trailing `=` from a text whose length is a multiple of four. */
  function StripPadding(t: string): (u: string)
    ensures |u| <= |t| && u == t[..|u|]
    ensures forall i :: |u| <= i < |t| ==> t[i] == '='
  {
    if |t| % 4 == 0 && |t| >= 2 && t[|t| - 2] == '=' && t[|t| - 1] == '=' then t[..|t| - 2]
    else if |t| % 4 == 0 && |t| >= 1 && t[|t| - 1] == '=' then t[..|t| - 1]
    else t
  }

  /** The three bytes held by a quantum of four alphabet characters. */
  function DecodeQuantum(c0: char, c1: char, c2: char, c3: char): (r: seq<Byte>)
    requires IsAlphabetChar(c0) && IsAlphabetChar(c1) && IsAlphabetChar(c2) && IsAlphabetChar(c3)
    ensures |r| == 3
  {
    [ ValueOf(c0) * 4 + ValueOf(c1) / 16,
      ValueOf(c1) % 16 * 16 + ValueOf(c2) / 4,
      ValueOf(c2) % 4 * 64 + ValueOf(c3) ]
  }

  /** The bytes of a final group of two or three characters; the bits beyond its last
      whole byte are discarded. */
  function DecodeTail(u: string): (r: seq<Byte>)
    requires AllAlphabet(u) && |u| < 4 && |u| != 1
    ensures |r| == if u == [] then 0 else |u| - 1
  {
    if |u| == 0 then []
    else if |u| == 2 then [ValueOf(u[0]) * 4 + ValueOf(u[1]) / 16]
    else [ValueOf(u[0]) * 4 + ValueOf(u[1]) / 16, ValueOf(u[1]) % 16 * 16 + ValueOf(u[2]) / 4]
  }

  /** The bytes of unpadded alphabet text. */
  function DecodeBody(u: string): (r: seq<Byte>)
    requires AllAlphabet(u) && |u| % 4 != 1
    ensures |r| == 3 * (|u| / 4) + (if |u| % 4 == 0 then 0 else |u| % 4 - 1)
    decreases |u|
  {
    if |u| < 4 then DecodeTail(u) else DecodeQuantum(u[0], u[1], u[2], u[3]) + DecodeBody(u[4..])
  }

  /** Forgiving-base64 decode: `None` is the failure on which `atob` throws an
      `InvalidCharacterError`. */
  function Decode(s: string): (r: Option<seq<Byte>>)
  {
    var u := StripPadding(RemoveAsciiWhitespace(s));
    if |u| % 4 == 1 || !AllAlphabet(u) then None else Some(DecodeBody(u))
  }

  /** A character that is neither alphabet, white space nor `=` makes decoding fail. */
  lemma DecodeRejectsForeign(s: string, i: nat)
    requires i < |s|
    requires !IsAlphabetChar(s[i]) && !IsAsciiWhitespace(s[i]) && s[i] != '='
    ensures Decode(s) == None
  {
    var t := RemoveAsciiWhitespace(s);
    RemoveAsciiWhitespaceSpec(s);
    var u := StripPadding(t);
    var c := s[i];
    assert c in s;
    var j :| 0 <= j < |t| && t[j] == c;
    assert j < |u|;
    assert u[j] == c;
  }

  /** Text whose non-white length leaves a remainder of one modulo four is rejected. */
  lemma DecodeRejectsLength(s: string)
    requires |RemoveAsciiWhitespace(s)| % 4 == 1
    ensures Decode(s) == None
  {
  }

  /** One group of three bytes survives encoding and decoding. */
  lemma QuantumRoundTrip(b0: Byte, b1: Byte, b2: Byte)
    ensures var q := EncodeQuantum(b0, b1, b2); DecodeQuantum(q[0], q[1], q[2], q[3]) == [b0, b1, b2]
  {
    var v0, v1, v2, v3 := b0 / 4, b0 % 4 * 16 + b1 / 16, b1 % 16 * 4 + b2 / 64, b2 % 64;
    ValueOfCharOf(v0);
    ValueOfCharOf(v1);
    ValueOfCharOf(v2);
    ValueOfCharOf(v3);
    assert v1 / 16 == b0 % 4 && v1 % 16 == b1 / 16;
    assert v2 / 4 == b1 % 16 && v2 % 4 == b2 / 64;
    assert v0 * 4 + v1 / 16 == b0;
    assert v1 % 16 * 16 + v2 / 4 == b1;
    assert v2 % 4 * 64 + v3 == b2;
  }

  /** A final group of one or two bytes survives encoding and decoding. */
  lemma TailRoundTrip(b: seq<Byte>)
    requires |b| < 3
    ensures DecodeTail(EncodeTail(b)) == b
  {
    if |b| == 1 {
      ValueOfCharOf(b[0] / 4);
      ValueOfCharOf(b[0] % 4 * 16);
    } else if |b| == 2 {
      ValueOfCharOf(b[0] / 4);
      ValueOfCharOf(b[0] % 4 * 16 + b[1] / 16);
      ValueOfCharOf(b[1] % 16 * 4);
    }
  }

  /** Whole quanta followed by a shorter tail leave the tail's length modulo four. */
  lemma QuantaRemainder(groups: nat, tail: nat)
    requires tail < 4
    ensures (4 * groups + tail) % 4 == tail
  {
  }

  /** Decoding text that starts with a whole quantum decodes that quantum first. */
  lemma DecodeBodyQuantum(q: string, rest: string)
    requires |q| == 4 && AllAlphabet(q) && AllAlphabet(rest) && |rest| % 4 != 1
    ensures AllAlphabet(q + rest) && |q + rest| % 4 != 1
    ensures DecodeBody(q + rest) == DecodeQuantum(q[0], q[1], q[2], q[3]) + DecodeBody(rest)
  {
    var e := q + rest;
    assert e[..4] == q && e[4..] == rest;
  }

  /** The unpadded encoding never leaves a single character over a whole quantum. */
  lemma EncodeBodyLength(b: seq<Byte>)
    ensures |EncodeBody(b)| % 4 != 1
  {
    QuantaRemainder(|b| / 3, TailChars(|b| % 3));
  }

  /** Decoding the unpadded encoding gives back the bytes. */
  lemma {:induction false} DecodeEncodeBody(b: seq<Byte>)
    ensures |EncodeBody(b)| % 4 != 1 && DecodeBody(EncodeBody(b)) == b
    decreases |b|
  {
    EncodeBodyLength(b);
    if |b| < 3 {
      TailRoundTrip(b);
    } else {
      var q := EncodeQuantum(b[0], b[1], b[2]);
      var rest := EncodeBody(b[3..]);
      EncodeBodyLength(b[3..]);
      calc {
        DecodeBody(EncodeBody(b));
        DecodeBody(q + rest);
        { DecodeBodyQuantum(q, rest); }
        DecodeQuantum(q[0], q[1], q[2], q[3]) + DecodeBody(rest);
        { QuantumRoundTrip(b[0], b[1], b[2]); DecodeEncodeBody(b[3..]); }
        [b[0], b[1], b[2]] + b[3..];
        b;
      }
    }
  }

  /** The encoding holds no white space, so `atob` sees all of it. */
  lemma EncodeHasNoWhitespace(b: seq<Byte>)
    ensures RemoveAsciiWhitespace(Encode(b)) == Encode(b)
  {
    var e := Encode(b);
    EncodeIsWellFormed(b);
    RemoveAsciiWhitespaceSpec(e);
    forall i | 0 <= i < |e| ensures !IsAsciiWhitespace(e[i]) {
      assert IsAlphabetChar(e[i]) || e[i] == '=';
    }
  }

  /** Stripping the padding of an encoding leaves its body. */
  lemma StripPaddingOfEncode(b: seq<Byte>)
    ensures StripPadding(Encode(b)) == EncodeBody(b)
  {
    var body := EncodeBody(b);
    var e := Encode(b);
    EncodeIsWellFormed(b);
    assert e == body + Padding(|b|);
    if |b| % 3 == 0 {
      assert e == body;
      if |e| >= 1 {
        assert IsAlphabetChar(body[|body| - 1]);
      }
    } else if |b| % 3 == 1 {
      assert |e| == |body| + 2 && e[|e| - 2] == '=' && e[|e| - 1] == '=';
      assert e[..|e| - 2] == body;
    } else {
      assert |e| == |body| + 1 && |body| >= 3;
      assert e[|e| - 2] == body[|body| - 1];
      assert IsAlphabetChar(body[|body| - 1]);
      assert e[..|e| - 1] == body;
    }
  }

  /** Decoding undoes encoding: `atob(btoa(x)) == x` on bytes. */
  lemma DecodeEncode(b: seq<Byte>)
    ensures Decode(Encode(b)) == Some(b)
  {
    EncodeHasNoWhitespace(b);
    StripPaddingOfEncode(b);
    DecodeEncodeBody(b);
  }

  // The string forms used by `btoa` and `atob`, whose strings hold one byte per character.

  predicate IsLatin1(s: string) {
    forall i :: 0 <= i < |s| ==> s[i] as int < 256
  }

  function Latin1Bytes(s: string): (b: seq<Byte>)
    requires IsLatin1(s)
    ensures |b| == |s| && forall i :: 0 <= i < |s| ==> b[i] == s[i] as int
  {
    seq(|s|, i requires 0 <= i < |s| => s[i] as int)
  }

  function BinaryString(b: seq<Byte>): (s: string)
    ensures |s| == |b| && IsLatin1(s) && forall i :: 0 <= i < |b| ==> s[i] as int == b[i]
  {
    seq(|b|, i requires 0 <= i < |b| => b[i] as char)
  }

  /** `btoa(s)`; `None` is the `InvalidCharacterError` it throws on a character above U+00FF. */
  function Btoa(s: string): (r: Option<string>)
    ensures r.Some? <==> IsLatin1(s)
  {
    if IsLatin1(s) then Some(Encode(Latin1Bytes(s))) else None
  }

  /** `atob(s)`; `None` is the `InvalidCharacterError` it throws. */
  function Atob(s: string): (r: Option<string>)
    ensures r.Some? ==> IsLatin1(r.value)
  {
    match Decode(s)
    case Some(b) => Some(BinaryString(b))
    case None => None
  }

  /** `atob(btoa(s)) == s` for every string `btoa` accepts. */
  lemma AtobBtoa(s: string)
    requires IsLatin1(s)
    ensures Btoa(s).Some? && Atob(Btoa(s).value) == Some(s)
  {
    DecodeEncode(Latin1Bytes(s));
    assert BinaryString(Latin1Bytes(s)) == s;
  }
}
