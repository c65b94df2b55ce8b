/** The client's "FHE" token codec. Despite its name it is not encryption: a token is the
    prefix "FHE-" followed by the Base64 encoding of the number's decimal rendering. */
module Codec {
  import opened Wrappers
  import opened Text
  import opened Numbers
  import opened Base64

  const Prefix: string := "FHE-"

  /** `FHEEncryptNumber`. A decimal rendering is Latin-1, so `btoa` does not throw on it. */
  function EncryptNumber(value: nat): string {
    Prefix + Btoa(DecimalString(value)).GetOr("")
  }

  lemma DecimalIsLatin1(n: nat)
    ensures IsLatin1(DecimalString(n))
  {
  }

  /** A token is the prefix followed by well-formed Base64 text: the Base64 encoding of
      the number's decimal rendering. */
  lemma EncryptNumberShape(value: nat)
    ensures HasPrefix(EncryptNumber(value), Prefix)
    ensures EncryptNumber(value)[|Prefix|..] == Encode(Latin1Bytes(DecimalString(value)))
    ensures IsWellFormed(EncryptNumber(value)[|Prefix|..])
  {
    var digits := DecimalString(value);
    DecimalIsLatin1(value);
    var token := EncryptNumber(value);
    assert token == Prefix + Encode(Latin1Bytes(digits));
    assert token[|Prefix|..] == Encode(Latin1Bytes(digits));
    EncodeIsWellFormed(Latin1Bytes(digits));
  }

  /** What `FHEDecryptNumber` yields: a number (possibly `NaN`), or the exception `atob`
      throws on a payload that is not Base64. */
  datatype Decrypted = Value(num: Num) | InvalidCharacter

  /** `FHEDecryptNumber`: a prefixed token has its payload Base64-decoded and parsed; any
      other token is parsed as it stands. */
  function DecryptNumber(token: string): Decrypted {
    if HasPrefix(token, Prefix) then
      match Atob(token[|Prefix|..])
      case Some(text) => Value(ParseFloat(text))
      case None => InvalidCharacter
    else
      Value(ParseFloat(token))
  }

  /** The round-trip law: every number's token decodes back to that number. */
  lemma DecryptEncrypt(n: nat)
    ensures DecryptNumber(EncryptNumber(n)) == Value(Finite(n))
  {
    var digits := DecimalString(n);
    var token := EncryptNumber(n);
    EncryptNumberShape(n);
    DecimalIsLatin1(n);
    assert token[|Prefix|..] == Btoa(digits).value;
    AtobBtoa(digits);
    ParseFloatOfDecimal(n);
  }

  /** Different numbers get different tokens. */
  lemma EncryptInjective(m: nat, n: nat)
    requires EncryptNumber(m) == EncryptNumber(n)
    ensures m == n
  {
    DecryptEncrypt(m);
    DecryptEncrypt(n);
  }

  /** A bare decimal number, as a token without the prefix, is parsed directly. */
  lemma DecryptPlainDecimal(n: nat)
    ensures DecryptNumber(DecimalString(n)) == Value(Finite(n))
  {
    var s := DecimalString(n);
    assert IsDigit(s[0]) && !IsDigit(Prefix[0]);
    assert !HasPrefix(s, Prefix) by {
      assert |Prefix| <= |s| ==> s[..|Prefix|][0] == s[0];
    }
    ParseFloatOfDecimal(n);
  }

  /** A token without the prefix is never Base64-decoded, so it never makes `atob` throw. */
  lemma DecryptUnprefixedParses(token: string)
    requires !HasPrefix(token, Prefix)
    ensures DecryptNumber(token).Value?
    ensures DecryptNumber(token).num == ParseFloat(token)
  {
  }

  /** A prefixed token whose payload holds a character outside the Base64 alphabet,
      white space and `=` makes `atob` throw. */
  lemma DecryptRejectsForeign(payload: string, i: nat)
    requires i < |payload|
    requires !IsAlphabetChar(payload[i]) && !IsAsciiWhitespace(payload[i]) && payload[i] != '='
    ensures DecryptNumber(Prefix + payload) == InvalidCharacter
  {
    var token := Prefix + payload;
    assert token[..|Prefix|] == Prefix;
    assert token[|Prefix|..] == payload;
    DecodeRejectsForeign(payload, i);
  }

  /** A prefixed token whose payload, without white space, has a length of one more than
      a multiple of four makes `atob` throw. */
  lemma DecryptRejectsLength(payload: string)
    requires |RemoveAsciiWhitespace(payload)| % 4 == 1
    ensures DecryptNumber(Prefix + payload) == InvalidCharacter
  {
    var token := Prefix + payload;
    assert token[..|Prefix|] == Prefix;
    assert token[|Prefix|..] == payload;
    DecodeRejectsLength(payload);
  }
}
