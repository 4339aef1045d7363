/** Lower-case hexadecimal, as section 8 of RFC 4648 has it, and the order it keeps. */
module Hex {
  import opened Prelude

  function Digit(n: nat): char
    requires n < 16
  {
    if n < 10 then '0' + n as char else 'a' + (n - 10) as char
  }

  function ToHex(bytes: Bytes): string {
    if bytes == [] then "" else [Digit(bytes[0] / 16), Digit(bytes[0] % 16)] + ToHex(bytes[1..])
  }

  function FromDigit(c: char): Option<nat> {
    if '0' <= c <= '9' then Some((c - '0') as int)
    else if 'a' <= c <= 'f' then Some((c - 'a') as int + 10)
    else if 'A' <= c <= 'F' then Some((c - 'A') as int + 10)
    else None
  }

  /** A radix-16 parse of two characters; a leading plus sign is accepted. */
  function ParsePair(c: char, d: char): Option<Byte> {
    match (FromDigit(c), FromDigit(d))
    case (Some(x), Some(y)) => if x < 16 && y < 16 then Some(16 * x + y) else None
    case (None, Some(y)) => if c == '+' && y < 16 then Some(y) else None
    case (_, None) => None
  }

  datatype HexError = OddLength | InvalidDigits

  function ParsePairs(s: string): Result<Bytes, HexError>
    requires |s| % 2 == 0
  {
    if s == "" then Ok([])
    else
      match (ParsePair(s[0], s[1]), ParsePairs(s[2..]))
      case (None, _) => Err(InvalidDigits)
      case (_, Err(e)) => Err(e)
      case (Some(b), Ok(rest)) => Ok([b] + rest)
  }

  function ParseHex(s: string): Result<Bytes, HexError> {
    if |s| % 2 != 0 then Err(OddLength) else ParsePairs(s)
  }

  method ToHexLoop(bytes: Bytes) returns (buf: string)
    ensures buf == ToHex(bytes)
  {
    buf := "";
    var i := 0;
    while i < |bytes|
      invariant 0 <= i <= |bytes|
      invariant buf + ToHex(bytes[i..]) == ToHex(bytes)
    {
      ghost var rest := ToHex(bytes[i + 1..]);
      assert bytes[i..][1..] == bytes[i + 1..];
      assert (buf + [Digit(bytes[i] / 16), Digit(bytes[i] % 16)]) + rest
          == buf + ([Digit(bytes[i] / 16), Digit(bytes[i] % 16)] + rest);
      buf := buf + [Digit(bytes[i] / 16), Digit(bytes[i] % 16)];
      i := i + 1;
    }
  }

  function Prepend(done: Bytes, rest: Result<Bytes, HexError>): Result<Bytes, HexError> {
    match rest case Ok(bytes) => Ok(done + bytes) case Err(e) => Err(e)
  }

  method ParseHexLoop(hex: string) returns (r: Result<Bytes, HexError>)
    ensures r == ParseHex(hex)
  {
    if |hex| % 2 != 0 {
      return Err(OddLength);
    }
    var res: Bytes := [];
    var i := 0;
    assert hex[0..] == hex && forall rest: Bytes :: [] + rest == rest;
    while i < |hex|
      invariant 0 <= i <= |hex| && i % 2 == 0
      invariant Prepend(res, ParsePairs(hex[i..])) == ParsePairs(hex)
    {
      assert hex[i..][2..] == hex[i + 2..];
      InvalidIsTheOnlyError(hex[i + 2..]);
      var pair := ParsePair(hex[i], hex[i + 1]);
      if pair.None? {
        return Err(InvalidDigits);
      }
      assert forall rest: Bytes :: (res + [pair.value]) + rest == res + ([pair.value] + rest);
      res := res + [pair.value];
      i := i + 2;
    }
    assert hex[i..] == "" && res + [] == res;
    return Ok(res);
  }

  lemma {:induction false} InvalidIsTheOnlyError(s: string)
    requires |s| % 2 == 0
    ensures ParsePairs(s).Err? ==> ParsePairs(s) == Err(InvalidDigits)
  {
    if s != "" {
      InvalidIsTheOnlyError(s[2..]);
    }
  }

  predicate HexDigit(c: char) {
    '0' <= c <= '9' || 'a' <= c <= 'f' || 'A' <= c <= 'F'
  }

  /** What can be parsed: pairs of digits of either case, or a plus sign and a digit. */
  predicate GoodPair(c: char, d: char) {
    HexDigit(d) && (HexDigit(c) || c == '+')
  }

  /** Exactly which texts are parsed, and which error comes otherwise. */
  lemma {:induction false} ParsesIff(s: string)
    ensures ParseHex(s) == Err(OddLength) <==> |s| % 2 != 0
    ensures |s| % 2 == 0 ==>
              (ParseHex(s).Ok? <==> forall i | 0 <= i < |s| / 2 :: GoodPair(s[2 * i], s[2 * i + 1]))
    ensures |s| % 2 == 0 && ParseHex(s).Err? ==> ParseHex(s) == Err(InvalidDigits)
    decreases |s|
  {
    if |s| % 2 == 0 && s != "" {
      var tail := s[2..];
      ParsesIff(tail);
      InvalidIsTheOnlyError(s);
      assert forall i | 0 <= i < |tail| / 2 :: tail[2 * i] == s[2 * (i + 1)] && tail[2 * i + 1] == s[2 * (i + 1) + 1];
      if ParseHex(s).Ok? {
        forall i | 0 <= i < |s| / 2
          ensures GoodPair(s[2 * i], s[2 * i + 1])
        {
          if i > 0 {
            assert GoodPair(tail[2 * (i - 1)], tail[2 * (i - 1) + 1]);
          }
        }
      } else if forall i | 0 <= i < |s| / 2 :: GoodPair(s[2 * i], s[2 * i + 1]) {
        assert GoodPair(s[2 * 0], s[2 * 0 + 1]);
        forall i | 0 <= i < |tail| / 2
          ensures GoodPair(tail[2 * i], tail[2 * i + 1])
        {
          assert GoodPair(s[2 * (i + 1)], s[2 * (i + 1) + 1]);
        }
      }
    }
  }

  function Lower(c: char): char {
    if 'A' <= c <= 'F' then c - 'A' + 'a' else c
  }

  function LowerAll(s: string): string {
    if s == "" then "" else [Lower(s[0])] + LowerAll(s[1..])
  }

  /** The case of the digits does not matter. */
  lemma {:induction false} ParsingIgnoresCase(s: string)
    ensures |LowerAll(s)| == |s| && ParseHex(LowerAll(s)) == ParseHex(s)
    decreases |s|
  {
    LowerKeepsLength(s);
    if |s| % 2 == 0 && s != "" {
      var tail := s[2..];
      assert s[1..][1..] == tail;
      LowerKeepsLength(tail);
      assert LowerAll(s) == [Lower(s[0])] + ([Lower(s[1])] + LowerAll(tail));
      assert LowerAll(s)[2..] == LowerAll(tail);
      ParsingIgnoresCase(tail);
      LowerSameDigit(s[0]);
      LowerSameDigit(s[1]);
    }
  }

  lemma LowerSameDigit(c: char)
    ensures FromDigit(Lower(c)) == FromDigit(c) && (Lower(c) == '+' <==> c == '+')
  {
  }

  lemma {:induction false} LowerKeepsLength(s: string)
    ensures |LowerAll(s)| == |s|
  {
    if s != "" {
      LowerKeepsLength(s[1..]);
    }
  }

  // -- Round trips --

  lemma DigitRoundTrip(n: nat)
    requires n < 16
    ensures FromDigit(Digit(n)) == Some(n)
  {
  }

  lemma {:induction false} HexLength(bytes: Bytes)
    ensures |ToHex(bytes)| == 2 * |bytes|
  {
    if bytes != [] {
      HexLength(bytes[1..]);
    }
  }

  /** Parsing inverts printing, so printing is injective. */
  lemma {:induction false} ParseInvertsPrint(bytes: Bytes)
    ensures ParseHex(ToHex(bytes)) == Ok(bytes)
  {
    HexLength(bytes);
    if bytes != [] {
      var b, tail := bytes[0], bytes[1..];
      HexLength(tail);
      ParseInvertsPrint(tail);
      DigitRoundTrip(b / 16);
      DigitRoundTrip(b % 16);
      assert ToHex(bytes)[2..] == ToHex(tail);
      assert bytes == [b] + tail;
    }
  }

  predicate LowerDigit(c: char) {
    '0' <= c <= '9' || 'a' <= c <= 'f'
  }

  predicate Reprints(s: string)
    requires |s| % 2 == 0
  {
    ParsePairs(s).Ok? && ToHex(ParsePairs(s).value) == s
  }

  lemma DigitReprintsIff(c: char)
    ensures FromDigit(c).Some? ==> FromDigit(c).value < 16
    ensures FromDigit(c).Some? && Digit(FromDigit(c).value) == c <==> LowerDigit(c)
  {
  }

  lemma DigitsOfByte(x: nat, y: nat)
    requires x < 16 && y < 16
    ensures (16 * x + y) / 16 == x && (16 * x + y) % 16 == y
  {
  }

  lemma OneByteHex(b: Byte)
    ensures ToHex([b]) == [Digit(b / 16), Digit(b % 16)]
  {
    assert [b][1..] == [];
  }

  lemma PairReprintsIff(c: char, d: char)
    ensures ParsePair(c, d).Some? && ToHex([ParsePair(c, d).value]) == [c, d] <==> LowerDigit(c) && LowerDigit(d)
  {
    DigitReprintsIff(c);
    DigitReprintsIff(d);
    match (FromDigit(c), FromDigit(d))
    case (Some(x), Some(y)) =>
      DigitsOfByte(x, y);
      OneByteHex(16 * x + y);
    case (None, Some(y)) =>
      DigitsOfByte(0, y);
      OneByteHex(y);
    case (_, None) =>
  }

  lemma ReprintsStep(s: string)
    requires |s| % 2 == 0 && s != ""
    ensures Reprints(s) <==>
              && ParsePair(s[0], s[1]).Some? && ToHex([ParsePair(s[0], s[1]).value]) == [s[0], s[1]]
              && Reprints(s[2..])
  {
    var tail := s[2..];
    assert s == [s[0], s[1]] + tail;
    if ParsePair(s[0], s[1]).Some? && ParsePairs(tail).Ok? {
      var b, bytes := ParsePair(s[0], s[1]).value, ParsePairs(tail).value;
      assert ([b] + bytes)[1..] == bytes && [b][1..] == [];
      var printed := [Digit(b / 16), Digit(b % 16)] + ToHex(bytes);
      assert ToHex([b] + bytes) == printed && ToHex([b]) == [Digit(b / 16), Digit(b % 16)];
      assert printed == s <==> printed[..2] == s[..2] && printed[2..] == tail by {
        assert s == s[..2] + tail && printed == printed[..2] + printed[2..];
      }
    }
  }

  /** Printing inverts parsing exactly on strings of an even number of lower-case digits. */
  lemma {:induction false} PrintInvertsParseIff(s: string)
    ensures ParseHex(s).Ok? && ToHex(ParseHex(s).value) == s <==> |s| % 2 == 0 && forall c <- s :: LowerDigit(c)
    decreases |s|
  {
    if |s| % 2 == 0 && s != "" {
      PrintInvertsParseIff(s[2..]);
      ReprintsStep(s);
      PairReprintsIff(s[0], s[1]);
      assert forall c <- s :: c == s[0] || c == s[1] || c in s[2..];
    }
  }

  // -- Order --

  predicate BytesBefore(a: Bytes, b: Bytes) {
    b != [] && (a == [] || a[0] < b[0] || (a[0] == b[0] && BytesBefore(a[1..], b[1..])))
  }

  predicate TextBefore(s: string, t: string) {
    t != "" && (s == "" || s[0] < t[0] || (s[0] == t[0] && TextBefore(s[1..], t[1..])))
  }

  lemma DigitsKeepOrder(m: nat, n: nat)
    requires m < 16 && n < 16
    ensures Digit(m) < Digit(n) <==> m < n
    ensures Digit(m) == Digit(n) <==> m == n
  {
  }

  lemma TextBeforeByTwo(a: char, b: char, s: string, c: char, d: char, t: string)
    ensures TextBefore([a, b] + s, [c, d] + t) <==> a < c || (a == c && (b < d || (b == d && TextBefore(s, t))))
  {
    assert ([a, b] + s)[1..] == [b] + s && ([c, d] + t)[1..] == [d] + t;
    assert ([b] + s)[1..] == s && ([d] + t)[1..] == t;
  }

  /** The order of the printed strings is the order of the bytes. */
  lemma {:induction false} PrintKeepsOrder(a: Bytes, b: Bytes)
    ensures TextBefore(ToHex(a), ToHex(b)) <==> BytesBefore(a, b)
    decreases |a|
  {
    if a != [] && b != [] {
      PrintKeepsOrder(a[1..], b[1..]);
      DigitsKeepOrder(a[0] / 16, b[0] / 16);
      DigitsKeepOrder(a[0] % 16, b[0] % 16);
      TextBeforeByTwo(Digit(a[0] / 16), Digit(a[0] % 16), ToHex(a[1..]),
                      Digit(b[0] / 16), Digit(b[0] % 16), ToHex(b[1..]));
    }
  }

  lemma {:induction false} TextBeforeIsTransitive(s: string, t: string, u: string)
    requires TextBefore(s, t) && TextBefore(t, u)
    ensures TextBefore(s, u)
    decreases |s|
  {
    if s != "" && s[0] == t[0] && t[0] == u[0] {
      TextBeforeIsTransitive(s[1..], t[1..], u[1..]);
    }
  }

  /** Of two different strings one comes before the other, and not both ways. */
  lemma {:induction false} TextBeforeIsTotal(s: string, t: string)
    ensures s == t || TextBefore(s, t) || TextBefore(t, s)
    ensures !(TextBefore(s, t) && TextBefore(t, s)) && !TextBefore(s, s)
    decreases |s|
  {
    if s != "" && t != "" && s[0] == t[0] {
      TextBeforeIsTotal(s[1..], t[1..]);
      if s[1..] == t[1..] {
        assert s == [s[0]] + s[1..] && t == [t[0]] + t[1..];
      }
    }
    if s != "" {
      TextBeforeIsTotal(s[1..], s[1..]);
    }
  }
}
