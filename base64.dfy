/** `Convert.ToBase64String` and `Convert.FromBase64String`: the base 64
    encoding of RFC 4648 section 4 (alphabet `A-Z a-z 0-9 + /`, `=` padding
    to a multiple of four characters), as the password hasher uses it. */
module Base64 {
  import opened Common

  type byte = x: int | 0 <= x < 256

  /** A 6-bit value. */
  type sextet = x: int | 0 <= x < 64

  /** The character of a 6-bit value in the base 64 alphabet. */
  function EncodeChar(v: sextet): (c: char)
    ensures c != '='
  {
    if v < 26 then ('A' as int + v) as char
    else if v < 52 then ('a' as int + v - 26) as char
    else if v < 62 then ('0' as int + v - 52) as char
    else if v == 62 then '+'
    else '/'
  }

  /** The 6-bit value of an alphabet character; `None` for any other
      character, padding included. */
  function DecodeChar(c: char): (r: Option<sextet>)
    ensures c == '=' ==> r.None?
  {
    if 'A' <= c <= 'Z' then Some(c as int - 'A' as int)
    else if 'a' <= c <= 'z' then Some(c as int - 'a' as int + 26)
    else if '0' <= c <= '9' then Some(c as int - '0' as int + 52)
    else if c == '+' then Some(62)
    else if c == '/' then Some(63)
    else None
  }

  lemma DecodeEncodeChar(v: sextet)
    ensures DecodeChar(EncodeChar(v)) == Some(v)
  {
  }

  /** The three bytes carried by four 6-bit values. */
  function Join0(c0: sextet, c1: sextet): byte
  {
    c0 * 4 + c1 / 16
  }

  function Join1(c1: sextet, c2: sextet): byte
  {
    c1 % 16 * 16 + c2 / 4
  }

  function Join2(c2: sextet, c3: sextet): byte
  {
    c2 % 4 * 64 + c3
  }

  /** The four characters of a full group of three bytes. */
  function EncodeGroup(b0: byte, b1: byte, b2: byte): (r: string)
    ensures |r| == 4 && '=' !in r
  {
    [EncodeChar(b0 / 4), EncodeChar(b0 % 4 * 16 + b1 / 16), EncodeChar(b1 % 16 * 4 + b2 / 64), EncodeChar(b2 % 64)]
  }

  /** `Convert.ToBase64String`: four characters per three bytes, the last
      group padded with `=`. */
  function Encode(b: seq<byte>): (r: string)
    ensures |r| == (|b| + 2) / 3 * 4
  {
    if |b| == 0 then ""
    else if |b| == 1 then [EncodeChar(b[0] / 4), EncodeChar(b[0] % 4 * 16), '=', '=']
    else if |b| == 2 then [EncodeChar(b[0] / 4), EncodeChar(b[0] % 4 * 16 + b[1] / 16), EncodeChar(b[1] % 16 * 4), '=']
    else EncodeGroup(b[0], b[1], b[2]) + Encode(b[3..])
  }

  /** The bytes of one unpadded group. */
  function DecodeGroup(s: string): (r: Option<seq<byte>>)
    requires |s| == 4
    ensures r.Some? ==> |r.value| == 3
  {
    match (DecodeChar(s[0]), DecodeChar(s[1]), DecodeChar(s[2]), DecodeChar(s[3]))
    case (Some(c0), Some(c1), Some(c2), Some(c3)) =>
      Some([Join0(c0, c1), Join1(c1, c2), Join2(c2, c3)])
    case _ => None
  }

  /** The bytes of the last group, which may end in one or two `=`. */
  function DecodeLast(s: string): (r: Option<seq<byte>>)
    requires |s| == 4
    ensures r.Some? ==> 1 <= |r.value| <= 3
  {
    if s[2] == '=' && s[3] == '=' then
      match (DecodeChar(s[0]), DecodeChar(s[1]))
      case (Some(c0), Some(c1)) => Some([Join0(c0, c1)])
      case _ => None
    else if s[3] == '=' then
      match (DecodeChar(s[0]), DecodeChar(s[1]), DecodeChar(s[2]))
      case (Some(c0), Some(c1), Some(c2)) => Some([Join0(c0, c1), Join1(c1, c2)])
      case _ => None
    else DecodeGroup(s)
  }

  /** Strict decoding: a multiple of four alphabet characters, with padding
      only at the very end. The unused low bits of a padded group are not
      checked. */
  function Decode(s: string): (r: Option<seq<byte>>)
    ensures r.Some? ==> |s| % 4 == 0
    decreases |s|
  {
    if |s| % 4 != 0 then None
    else if s == [] then Some([])
    else if |s| == 4 then DecodeLast(s)
    else
      match (DecodeGroup(s[..4]), Decode(s[4..]))
      case (Some(head), Some(rest)) => Some(head + rest)
      case _ => None
  }

  /** The characters `Convert.FromBase64String` skips. */
  predicate IsSkipped(c: char)
  {
    c == ' ' || c == '\t' || c == '\r' || c == '\n'
  }

  function NotSkipped(c: char): bool
  {
    !IsSkipped(c)
  }

  /** `Convert.FromBase64String`: blanks are skipped, then the rest is
      decoded strictly; `None` stands for the `FormatException`. */
  function FromBase64String(s: string): (r: Option<seq<byte>>)
    ensures r.Some? ==> |Filter(s, NotSkipped)| % 4 == 0
  {
    Decode(Filter(s, NotSkipped))
  }

  /** Splitting a value into a quotient and a remainder by a constant and
      joining them back gives the value again. */
  lemma DivMod16(hi: int, lo: int)
    requires 0 <= lo < 16
    ensures (hi * 16 + lo) / 16 == hi && (hi * 16 + lo) % 16 == lo
  {
  }

  lemma DivMod4(hi: int, lo: int)
    requires 0 <= lo < 4
    ensures (hi * 4 + lo) / 4 == hi && (hi * 4 + lo) % 4 == lo
  {
  }

  /** The first byte comes back from the first two characters. */
  lemma JoinSplit0(b0: byte, b1: byte)
    ensures Join0(b0 / 4, b0 % 4 * 16 + b1 / 16) == b0
  {
    DivMod16(b0 % 4, b1 / 16);
  }

  /** The second byte comes back from the second and third characters. */
  lemma JoinSplit1(b0: byte, b1: byte, b2: byte)
    ensures Join1(b0 % 4 * 16 + b1 / 16, b1 % 16 * 4 + b2 / 64) == b1
  {
    DivMod16(b0 % 4, b1 / 16);
    DivMod4(b1 % 16, b2 / 64);
  }

  /** The third byte comes back from the last two characters. */
  lemma JoinSplit2(b1: byte, b2: byte)
    ensures Join2(b1 % 16 * 4 + b2 / 64, b2 % 64) == b2
  {
    DivMod4(b1 % 16, b2 / 64);
  }

  /** A full group decodes to the bytes it encodes. */
  lemma DecodeEncodeGroup(b0: byte, b1: byte, b2: byte)
    ensures DecodeGroup(EncodeGroup(b0, b1, b2)) == Some([b0, b1, b2])
  {
    DecodeEncodeChar(b0 / 4);
    DecodeEncodeChar(b0 % 4 * 16 + b1 / 16);
    DecodeEncodeChar(b1 % 16 * 4 + b2 / 64);
    DecodeEncodeChar(b2 % 64);
    JoinSplit0(b0, b1);
    JoinSplit1(b0, b1, b2);
    JoinSplit2(b1, b2);
  }

  /** A single trailing byte, padded with `==`, decodes back. */
  lemma DecodeEncodeOne(b0: byte)
    ensures Decode(Encode([b0])) == Some([b0])
  {
    DecodeEncodeChar(b0 / 4);
    DecodeEncodeChar(b0 % 4 * 16);
    JoinSplit0(b0, 0);
    var s := Encode([b0]);
    assert s == [EncodeChar(b0 / 4), EncodeChar(b0 % 4 * 16), '=', '='];
    assert DecodeLast(s) == Some([Join0(b0 / 4, b0 % 4 * 16)]);
  }

  /** Two trailing bytes, padded with `=`, decode back. */
  lemma DecodeEncodeTwo(b0: byte, b1: byte)
    ensures Decode(Encode([b0, b1])) == Some([b0, b1])
  {
    DecodeEncodeChar(b0 / 4);
    DecodeEncodeChar(b0 % 4 * 16 + b1 / 16);
    DecodeEncodeChar(b1 % 16 * 4);
    JoinSplit0(b0, b1);
    JoinSplit1(b0, b1, 0);
    var s := Encode([b0, b1]);
    assert s == [EncodeChar(b0 / 4), EncodeChar(b0 % 4 * 16 + b1 / 16), EncodeChar(b1 % 16 * 4), '='];
    assert DecodeLast(s) == Some([Join0(b0 / 4, b0 % 4 * 16 + b1 / 16), Join1(b0 % 4 * 16 + b1 / 16, b1 % 16 * 4)]);
  }

  /** Decoding undoes encoding: `FromBase64String(ToBase64String(b)) == b`
      for every byte string. */
  lemma {:induction false} DecodeEncode(b: seq<byte>)
    ensures Decode(Encode(b)) == Some(b)
    decreases |b|
  {
    if |b| == 1 {
      assert b == [b[0]];
      DecodeEncodeOne(b[0]);
    } else if |b| == 2 {
      assert b == [b[0], b[1]];
      DecodeEncodeTwo(b[0], b[1]);
    } else if |b| >= 3 {
      var head := EncodeGroup(b[0], b[1], b[2]);
      var rest := b[3..];
      assert b == [b[0], b[1], b[2]] + rest;
      assert Encode(b) == head + Encode(rest);
      DecodeEncodeGroup(b[0], b[1], b[2]);
      if rest == [] {
        assert head + Encode(rest) == head;
        assert b == [b[0], b[1], b[2]];
        DecodeFullGroup(head);
      } else {
        DecodeEncode(rest);
        DecodeGroupThen(head, Encode(rest));
      }
    }
  }

  /** A last group without padding decodes as a full group. */
  lemma DecodeFullGroup(head: string)
    requires |head| == 4 && '=' !in head
    ensures Decode(head) == DecodeGroup(head)
  {
    assert head[2] != '=' && head[3] != '=';
  }

  /** Decoding reads a leading unpadded group, then the rest. */
  lemma DecodeGroupThen(head: string, rest: string)
    requires |head| == 4 && rest != [] && |rest| % 4 == 0
    ensures Decode(head + rest) ==
      if DecodeGroup(head).Some? && Decode(rest).Some?
      then Some(DecodeGroup(head).value + Decode(rest).value)
      else None
  {
    var s := head + rest;
    assert |s| % 4 == 0 && |s| > 4;
    assert s[..4] == head && s[4..] == rest;
  }

  /** The encoding uses only alphabet characters and `=`, so nothing in it
      is skipped. */
  lemma {:induction false} EncodeHasNoBlanks(b: seq<byte>)
    ensures forall i :: 0 <= i < |Encode(b)| ==> NotSkipped(Encode(b)[i])
    decreases |b|
  {
    if |b| >= 3 {
      EncodeHasNoBlanks(b[3..]);
      var s := Encode(b);
      forall i | 0 <= i < |s| ensures NotSkipped(s[i]) {
        if i >= 4 {
          assert s[i] == Encode(b[3..])[i - 4];
        }
      }
    }
  }

  /** The round trip through the .NET pair of conversions. */
  lemma FromBase64StringRoundTrip(b: seq<byte>)
    ensures FromBase64String(Encode(b)) == Some(b)
  {
    EncodeHasNoBlanks(b);
    FilterKeepsAll(Encode(b), NotSkipped);
    DecodeEncode(b);
  }
}
