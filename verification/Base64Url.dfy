/** Unpadded base64url (section 5 of RFC 4648), with Go's lenient decoder. */
module Base64Url {
  import opened Model

  type byte = b: int | 0 <= b < 256
  type sextet = b: int | 0 <= b < 64

  function CharOf(i: sextet): char {
    if i < 26 then (i + 'A' as int) as char
    else if i < 52 then (i - 26 + 'a' as int) as char
    else if i < 62 then (i - 52 + '0' as int) as char
    else if i == 62 then '-' else '_'
  }

  function SextetOf(c: char): Option<sextet> {
    if 'A' <= c <= 'Z' then Some(c as int - 'A' as int)
    else if 'a' <= c <= 'z' then Some(c as int - 'a' as int + 26)
    else if '0' <= c <= '9' then Some(c as int - '0' as int + 52)
    else if c == '-' then Some(62)
    else if c == '_' then Some(63)
    else None
  }

  /** Each three bytes to four sextets, a rest of one or two bytes to two or three. */
  function Pack(b: seq<byte>): seq<sextet> {
    if b == [] then []
    else if |b| == 1 then [b[0] / 4, b[0] % 4 * 16]
    else if |b| == 2 then [b[0] / 4, b[0] % 4 * 16 + b[1] / 16, b[1] % 16 * 4]
    else [b[0] / 4, b[0] % 4 * 16 + b[1] / 16, b[1] % 16 * 4 + b[2] / 64, b[2] % 64] + Pack(b[3..])
  }

  function Encode(b: seq<byte>): string {
    var p := Pack(b);
    seq(|p|, i requires 0 <= i < |p| => CharOf(p[i]))
  }

  /** The decoder skips line breaks wherever they are. */
  function StripLineBreaks(s: string): string {
    if s == [] then []
    else if s[0] == '\r' || s[0] == '\n' then StripLineBreaks(s[1..])
    else [s[0]] + StripLineBreaks(s[1..])
  }

  /** None when some character is outside the alphabet. */
  function Sextets(s: string): Option<seq<sextet>> {
    if s == [] then Some([])
    else
      var (first, rest) := (SextetOf(s[0]), Sextets(s[1..]));
      if first.None? || rest.None? then None else Some([first.value] + rest.value)
  }

  /** A rest of a single sextet is an error; the unused low bits of the last are ignored. */
  function Unpack(p: seq<sextet>): Option<seq<byte>> {
    if p == [] then Some([])
    else if |p| == 1 then None
    else
      var x: byte := (p[0] as int) * 4 + p[1] as int / 16;
      if |p| == 2 then Some([x])
      else
        var y: byte := (p[1] as int) % 16 * 16 + p[2] as int / 4;
        if |p| == 3 then Some([x, y])
        else match Unpack(p[4..])
          case None => None
          case Some(rest) => Some([x, y, (p[2] as int) % 4 * 64 + p[3] as int] + rest)
  }

  function Decode(s: string): Option<seq<byte>> {
    match Sextets(StripLineBreaks(s))
    case None => None
    case Some(p) => Unpack(p)
  }

  /** Neither a dot nor a line break. */
  predicate Clean(c: char) { c != '.' && c != '\r' && c != '\n' }

  /** The ends of each run of table 2 in section 5 of RFC 4648. */
  lemma CharsAreAlphabet()
    ensures CharOf(0) == 'A' && CharOf(25) == 'Z' && CharOf(26) == 'a' && CharOf(51) == 'z'
    ensures CharOf(52) == '0' && CharOf(61) == '9' && CharOf(62) == '-' && CharOf(63) == '_'
    ensures forall i: sextet :: 0 < i < 62 && i != 26 && i != 52 ==> CharOf(i) as int == CharOf(i - 1) as int + 1
  {
  }

  lemma CharRoundTrip(i: sextet)
    ensures SextetOf(CharOf(i)) == Some(i)
    ensures Clean(CharOf(i))
  {
  }

  /** A sextet made of the low bits of one byte and the high bits of the next gives both back. */
  lemma SplitSextet(high: int, low: int)
    ensures 0 <= low < 16 ==> (high * 16 + low) / 16 == high && (high * 16 + low) % 16 == low
    ensures 0 <= low < 4 ==> (high * 4 + low) / 4 == high && (high * 4 + low) % 4 == low
  {
  }

  lemma SplitBytes(x: byte, y: byte, z: byte)
    ensures x / 4 * 4 + (x % 4 * 16 + y / 16) / 16 == x
    ensures (x % 4 * 16 + y / 16) % 16 * 16 + (y % 16 * 4 + z / 64) / 4 == y
    ensures (y % 16 * 4 + z / 64) % 4 * 64 + z % 64 == z
  {
    SplitSextet(x % 4, y / 16);
    SplitSextet(y % 16, z / 64);
  }

  lemma {:induction false} UnpackOfPack(b: seq<byte>)
    ensures Unpack(Pack(b)) == Some(b)
  {
    if |b| == 1 {
      SplitBytes(b[0], 0, 0);
      assert b == [b[0]];
    } else if |b| == 2 {
      SplitBytes(b[0], b[1], 0);
      assert b == [b[0], b[1]];
    } else if |b| > 2 {
      UnpackOfPack(b[3..]);
      SplitBytes(b[0], b[1], b[2]);
      assert Pack(b)[4..] == Pack(b[3..]);
      assert b == [b[0], b[1], b[2]] + b[3..];
    }
  }

  lemma {:induction false} SextetsOfChars(p: seq<sextet>, s: string)
    requires |s| == |p| && forall i :: 0 <= i < |p| ==> s[i] == CharOf(p[i])
    ensures Sextets(s) == Some(p)
  {
    if p != [] {
      CharRoundTrip(p[0]);
      SextetsOfChars(p[1..], s[1..]);
      assert [p[0]] + p[1..] == p;
    }
  }

  /** Encoded text holds no dot and no line break. */
  lemma EncodeIsClean(b: seq<byte>)
    ensures forall c :: c in Encode(b) ==> Clean(c)
  {
    forall i: sextet
      ensures Clean(CharOf(i))
    {
      CharRoundTrip(i);
    }
  }

  lemma {:induction false} StripKeepsClean(s: string)
    requires forall c :: c in s ==> Clean(c)
    ensures StripLineBreaks(s) == s
  {
    if s != [] {
      assert s[0] in s;
      StripKeepsClean(s[1..]);
    }
  }

  /** Decoding undoes encoding, for every byte string. */
  lemma DecodeOfEncode(b: seq<byte>)
    ensures Decode(Encode(b)) == Some(b)
  {
    EncodeIsClean(b);
    StripKeepsClean(Encode(b));
    SextetsOfChars(Pack(b), Encode(b));
    UnpackOfPack(b);
  }
}
