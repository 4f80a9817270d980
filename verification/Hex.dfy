/** Hexadecimal text of byte strings. */
module Hex {
  import opened Wrappers
  import opened Words

  datatype HexError = OddLength | InvalidDigit

  function DigitChar(n: nat): char
    requires n < 16
  {
    if n < 10 then ('0' as nat + n) as char else ('a' as nat + (n - 10)) as char
  }

  function DigitValue(c: char): Option<nat> {
    if '0' <= c <= '9' then Some(c as nat - '0' as nat)
    else if 'a' <= c <= 'f' then Some(c as nat - 'a' as nat + 10)
    else if 'A' <= c <= 'F' then Some(c as nat - 'A' as nat + 10)
    else None
  }

  predicate IsDigit(c: char) {
    DigitValue(c).Some?
  }

  /** Two lower-case digits per byte. */
  function Text(bytes: seq<byte>): string {
    if bytes == [] then ""
    else
      var n := |bytes| - 1;
      Text(bytes[..n]) + [DigitChar(bytes[n] / 16), DigitChar(bytes[n] % 16)]
  }

  method HexString(bytes: seq<byte>) returns (out: string)
    ensures out == Text(bytes)
  {
    out := "";
    for i := 0 to |bytes|
      invariant out == Text(bytes[..i])
    {
      out := out + [DigitChar(bytes[i] / 16), DigitChar(bytes[i] % 16)];
      assert bytes[..i + 1][..i] == bytes[..i];
    }
    assert bytes[..|bytes|] == bytes;
  }

  /** `u8::from_str_radix` on two characters: a leading plus sign is accepted. */
  function ParsePair(a: char, b: char): Option<byte> {
    match DigitValue(b)
    case None => None
    case Some(low) =>
      if a == '+' then Some(low)
      else match DigitValue(a)
        case None => None
        case Some(high) => Some(16 * high + low)
  }

  function DecodePairs(s: string): Result<seq<byte>, HexError>
    requires |s| % 2 == 0
  {
    if s == "" then Ok([])
    else match ParsePair(s[0], s[1])
      case None => Err(InvalidDigit)
      case Some(b) =>
        match DecodePairs(s[2..])
        case Err(e) => Err(e)
        case Ok(rest) => Ok([b] + rest)
  }

  function DecodeHex(s: string): Result<seq<byte>, HexError> {
    if |s| % 2 != 0 then Err(OddLength) else DecodePairs(s)
  }

  function LowerChar(c: char): char {
    if 'A' <= c <= 'F' then (c as nat - 'A' as nat + 'a' as nat) as char else c
  }

  function Lower(s: string): string {
    seq(|s|, i requires 0 <= i < |s| => LowerChar(s[i]))
  }

  /** The digits in their order. */
  lemma DigitTable(n: nat)
    requires n < 16
    ensures DigitChar(n) == "0123456789abcdef"[n] && DigitValue(DigitChar(n)) == Some(n)
  {
  }

  lemma DigitPair(b: byte)
    ensures ParsePair(DigitChar(b / 16), DigitChar(b % 16)) == Some(b)
  {
  }

  lemma {:induction false} TextHead(bytes: seq<byte>)
    requires bytes != []
    ensures Text(bytes) == [DigitChar(bytes[0] / 16), DigitChar(bytes[0] % 16)] + Text(bytes[1..])
    decreases |bytes|
  {
    var n := |bytes| - 1;
    if n > 0 {
      TextHead(bytes[..n]);
      assert bytes[..n][1..] == bytes[1..][..n - 1];
    } else {
      assert bytes[..n] == [] && bytes[1..] == [];
    }
  }

  /** Decoding undoes encoding, for every byte string. */
  lemma {:induction false} DecodeOfText(bytes: seq<byte>)
    ensures |Text(bytes)| == 2 * |bytes| && DecodeHex(Text(bytes)) == Ok(bytes)
    decreases |bytes|
  {
    if bytes == [] {
    } else {
      TextHead(bytes);
      DecodeOfText(bytes[1..]);
      DigitPair(bytes[0]);
      var t := Text(bytes);
      assert t[2..] == Text(bytes[1..]);
      assert ParsePair(t[0], t[1]) == Some(bytes[0]);
      assert [bytes[0]] + bytes[1..] == bytes;
    }
  }

  /** Exactly the accepted texts: an even number of characters, each pair two
      hexadecimal digits or a plus sign and one digit. */
  lemma {:induction false} DecodesIff(s: string)
    ensures DecodeHex(s).Ok? <==>
            |s| % 2 == 0 &&
            forall i :: 0 <= i < |s| ==> IsDigit(s[i]) || (i % 2 == 0 && s[i] == '+')
    ensures DecodeHex(s) == Err(OddLength) <==> |s| % 2 == 1
    decreases |s|
  {
    if |s| < 2 || |s| % 2 == 1 {
    } else {
      var t := s[2..];
      DecodesIff(t);
      assert DecodeHex(s).Ok? <==> ParsePair(s[0], s[1]).Some? && DecodeHex(t).Ok?;
      if DecodeHex(s).Ok? {
        forall i | 0 <= i < |s|
          ensures IsDigit(s[i]) || (i % 2 == 0 && s[i] == '+')
        {
          if i >= 2 { assert t[i - 2] == s[i]; }
        }
      }
      if forall i :: 0 <= i < |s| ==> IsDigit(s[i]) || (i % 2 == 0 && s[i] == '+') {
        forall i | 0 <= i < |t|
          ensures IsDigit(t[i]) || (i % 2 == 0 && t[i] == '+')
        {
          assert t[i] == s[i + 2];
        }
        assert IsDigit(s[0]) || s[0] == '+';
        assert IsDigit(s[1]);
      }
    }
  }

  lemma PairBack(a: char, b: char)
    requires IsDigit(a) && IsDigit(b)
    ensures var x := ParsePair(a, b).value;
            DigitChar(x / 16) == LowerChar(a) && DigitChar(x % 16) == LowerChar(b)
  {
    assert ParsePair(a, b).value == 16 * DigitValue(a).value + DigitValue(b).value;
  }

  ghost predicate AllDigits(s: string) {
    forall i :: 0 <= i < |s| ==> IsDigit(s[i])
  }

  lemma DigitsSplit(s: string)
    requires |s| >= 2
    ensures AllDigits(s) <==> IsDigit(s[0]) && IsDigit(s[1]) && AllDigits(s[2..])
  {
    if IsDigit(s[0]) && IsDigit(s[1]) && AllDigits(s[2..]) {
      forall i | 0 <= i < |s|
        ensures IsDigit(s[i])
      {
        assert i >= 2 ==> s[i] == s[2..][i - 2];
      }
    }
  }

  /** What the first byte of a text says about its first two characters. */
  lemma HeadMatches(a: char, b: char)
    requires ParsePair(a, b).Some?
    ensures var x := ParsePair(a, b).value;
            [DigitChar(x / 16), DigitChar(x % 16)] == [LowerChar(a), LowerChar(b)] <==> IsDigit(a) && IsDigit(b)
  {
    var x := ParsePair(a, b).value;
    if IsDigit(a) {
      PairBack(a, b);
    } else {
      assert a == '+' && LowerChar(a) == '+' && DigitChar(x / 16) != '+';
      assert [DigitChar(x / 16), DigitChar(x % 16)][0] != [LowerChar(a), LowerChar(b)][0];
    }
  }

  lemma JoinedEqual(a: string, b: string, c: string, d: string)
    requires |a| == |c|
    ensures a + b == c + d <==> a == c && b == d
  {
    if a + b == c + d {
      assert (a + b)[..|a|] == a && (c + d)[..|a|] == c;
      assert (a + b)[|a|..] == b && (c + d)[|a|..] == d;
    }
  }

  /** The text with a zero for each plus sign. */
  function Unsigned(s: string): string {
    seq(|s|, i requires 0 <= i < |s| => if s[i] == '+' then '0' else s[i])
  }

  lemma HeadText(a: char, b: char)
    requires ParsePair(a, b).Some?
    ensures var x := ParsePair(a, b).value;
            [DigitChar(x / 16), DigitChar(x % 16)] == Lower(Unsigned([a, b]))
  {
    var x := ParsePair(a, b).value;
    if IsDigit(a) {
      PairBack(a, b);
    } else {
      PairBack('0', b);
      assert ParsePair('0', b) == Some(x);
    }
    assert Unsigned([a, b]) == [if a == '+' then '0' else a, b];
  }

  /** What is decoded from an accepted text is what the text says, a plus sign read as
      a zero, in either case. */
  lemma {:induction false} TextOfDecode(s: string)
    requires DecodeHex(s).Ok?
    ensures Text(DecodeHex(s).value) == Lower(Unsigned(s))
    decreases |s|
  {
    if s == "" {
    } else {
      var t, bytes := s[2..], DecodeHex(s).value;
      TextOfDecode(t);
      TextHead(bytes);
      HeadText(s[0], s[1]);
      assert bytes[1..] == DecodeHex(t).value;
      assert Lower(Unsigned(s)) == Lower(Unsigned([s[0], s[1]])) + Lower(Unsigned(t));
    }
  }

  /** Encoding undoes decoding, up to letter case, exactly when no plus sign
      was accepted. */
  lemma {:induction false} TextOfDecodeIff(s: string)
    requires DecodeHex(s).Ok?
    ensures Text(DecodeHex(s).value) == Lower(s) <==> AllDigits(s)
    decreases |s|
  {
    DecodesIff(s);
    if s == "" {
    } else {
      var t := s[2..];
      TextOfDecodeIff(t);
      var bytes := DecodeHex(s).value;
      TextHead(bytes);
      var pair := [DigitChar(bytes[0] / 16), DigitChar(bytes[0] % 16)];
      var low := [LowerChar(s[0]), LowerChar(s[1])];
      assert bytes[1..] == DecodeHex(t).value && Text(bytes) == pair + Text(bytes[1..]);
      assert Lower(s) == low + Lower(t);
      JoinedEqual(pair, Text(bytes[1..]), low, Lower(t));
      HeadMatches(s[0], s[1]);
      DigitsSplit(s);
    }
  }
}
