/**
 Base16 encoding, section 8 of RFC 4648, over any alphabet of sixteen distinct symbols.

 The encoder the echo server calls belongs to libsolace, which is not part of this model, so
 nothing here depends on whether it writes capital or small letters.
 */
module Base16 {
  import opened Cursors
  import opened Options

  /** Sixteen distinct symbols; symbol number n stands for the digit n. */
  ghost predicate IsAlphabet(alphabet: seq<byte>) {
    && |alphabet| == 16
    && forall i, j :: 0 <= i < j < 16 ==> alphabet[i] != alphabet[j]
  }

  /** The alphabet printed in table 5 of RFC 4648: the digits, then A to F. */
  const RFC_ALPHABET: seq<byte> := [48, 49, 50, 51, 52, 53, 54, 55, 56, 57, 65, 66, 67, 68, 69, 70]

  function Encode(alphabet: seq<byte>, s: seq<byte>): (r: seq<byte>)
    requires |alphabet| == 16
    ensures |r| == 2 * |s|
  {
    if s == [] then [] else [alphabet[s[0] / 16], alphabet[s[0] % 16]] + Encode(alphabet, s[1..])
  }

  /** The digit a symbol stands for. */
  function DigitOf(alphabet: seq<byte>, c: byte): (r: Option<nat>)
    ensures r.Some? ==> r.value < |alphabet| && alphabet[r.value] == c
    ensures r.None? ==> c !in alphabet
  {
    if alphabet == [] then None
    else if alphabet[|alphabet| - 1] == c then Some(|alphabet| - 1)
    else DigitOf(alphabet[..|alphabet| - 1], c)
  }

  function Decode(alphabet: seq<byte>, t: seq<byte>): Option<seq<byte>>
    requires |alphabet| == 16
  {
    if t == [] then Some([])
    else if |t| == 1 then None
    else
      match (DigitOf(alphabet, t[0]), DigitOf(alphabet, t[1]), Decode(alphabet, t[2..]))
      case (Some(hi), Some(lo), Some(rest)) => Some([hi * 16 + lo] + rest)
      case _ => None
  }

  lemma DigitOfSymbol(alphabet: seq<byte>, d: nat)
    requires IsAlphabet(alphabet) && d < 16
    ensures DigitOf(alphabet, alphabet[d]) == Some(d)
  {
    assert alphabet[d] in alphabet;
  }

  /** Decoding undoes encoding. */
  lemma {:induction false} DecodeEncode(alphabet: seq<byte>, s: seq<byte>)
    requires IsAlphabet(alphabet)
    ensures Decode(alphabet, Encode(alphabet, s)) == Some(s)
  {
    if s != [] {
      DecodeEncode(alphabet, s[1..]);
      DigitOfSymbol(alphabet, s[0] / 16);
      DigitOfSymbol(alphabet, s[0] % 16);
      var t := Encode(alphabet, s);
      assert t[2..] == Encode(alphabet, s[1..]);
      assert s == [s[0]] + s[1..];
    }
  }

  /** A text decodes exactly when it is the encoding of something, and then to just that. */
  lemma {:induction false} EncodeDecode(alphabet: seq<byte>, t: seq<byte>)
    requires IsAlphabet(alphabet)
    ensures Decode(alphabet, t).Some? <==> exists s :: t == Encode(alphabet, s)
    ensures Decode(alphabet, t).Some? ==> t == Encode(alphabet, Decode(alphabet, t).value)
  {
    if exists s :: t == Encode(alphabet, s) {
      var s :| t == Encode(alphabet, s);
      DecodeEncode(alphabet, s);
    }
    if Decode(alphabet, t).Some? {
      EncodeOfDecoded(alphabet, t);
    }
  }

  lemma {:induction false} EncodeOfDecoded(alphabet: seq<byte>, t: seq<byte>)
    requires |alphabet| == 16 && Decode(alphabet, t).Some?
    ensures t == Encode(alphabet, Decode(alphabet, t).value)
  {
    if t != [] {
      EncodeOfDecoded(alphabet, t[2..]);
      var s := Decode(alphabet, t).value;
      assert s[1..] == Decode(alphabet, t[2..]).value;
      assert t == [t[0], t[1]] + t[2..];
    }
  }

  lemma {:induction false} EncodeAppend(alphabet: seq<byte>, s: seq<byte>, b: byte)
    requires |alphabet| == 16
    ensures Encode(alphabet, s + [b]) == Encode(alphabet, s) + [alphabet[b / 16], alphabet[b % 16]]
  {
    if s == [] {
      assert s + [b] == [b];
    } else {
      EncodeAppend(alphabet, s[1..], b);
      assert (s + [b])[1..] == s[1..] + [b];
    }
  }

  /** Two symbols for each byte, the one for its high half first. */
  lemma {:induction false} EncodeAt(alphabet: seq<byte>, s: seq<byte>, k: nat)
    requires |alphabet| == 16 && k < |s|
    ensures Encode(alphabet, s)[2 * k] == alphabet[s[k] / 16]
    ensures Encode(alphabet, s)[2 * k + 1] == alphabet[s[k] % 16]
  {
    if k > 0 {
      EncodeAt(alphabet, s[1..], k - 1);
    }
  }

  lemma RfcAlphabetIsAlphabet()
    ensures IsAlphabet(RFC_ALPHABET)
    ensures forall i | 0 <= i < 16 :: RFC_ALPHABET[i] == "0123456789ABCDEF"[i] as int
  {
    assert forall i | 0 <= i < 16 :: RFC_ALPHABET[i] == if i < 10 then 48 + i else 55 + i;
  }

  lemma RfcRoundTrip(s: seq<byte>)
    ensures Decode(RFC_ALPHABET, Encode(RFC_ALPHABET, s)) == Some(s)
  {
    RfcAlphabetIsAlphabet();
    DecodeEncode(RFC_ALPHABET, s);
  }
}
