/** UTF-8 as a browser reads an event stream: the encoder, and the decoder of the WHATWG Encoding
    Standard (section 8.1.1), which replaces every malformed piece by U+FFFD. */
module Utf8 {
  type Byte = b: int | 0 <= b < 256

  const REPLACEMENT: char := 0xFFFD as char

  function EncodeChar(c: char): (bs: seq<Byte>)
    ensures 1 <= |bs| <= 4
  {
    var n := c as int;
    if n < 0x80 then [n]
    else if n < 0x800 then [0xC0 + n / 64, 0x80 + n % 64]
    else if n < 0x10000 then [0xE0 + n / 4096, 0x80 + n / 64 % 64, 0x80 + n % 64]
    else [0xF0 + n / 262144, 0x80 + n / 4096 % 64, 0x80 + n / 64 % 64, 0x80 + n % 64]
  }

  function Bytes(s: string): seq<Byte> {
    if s == [] then [] else EncodeChar(s[0]) + Bytes(s[1..])
  }

  /** Byte `k`, or 0 after the end; 0 continues nothing. */
  function ByteAt(b: seq<Byte>, k: nat): Byte { if k < |b| then b[k] else 0 }

  predicate Continues(x: Byte) { 0x80 <= x < 0xC0 }

  /** Whether `x` may follow the lead byte: no overlong form, no surrogate, nothing above U+10FFFF. */
  predicate Second(lead: Byte, x: Byte) {
    && Continues(x)
    && (lead == 0xE0 ==> x >= 0xA0)
    && (lead == 0xED ==> x < 0xA0)
    && (lead == 0xF0 ==> x >= 0x90)
    && (lead == 0xF4 ==> x < 0x90)
  }

  /** The first character and the number of bytes it takes. A malformed piece ends before the first byte
      that does not fit. */
  function DecodeOne(b: seq<Byte>): (r: (char, nat))
    requires b != []
    ensures 1 <= r.1 <= |b|
  {
    var lead: int := b[0];
    var x: int := ByteAt(b, 1);
    var y: int := ByteAt(b, 2);
    var z: int := ByteAt(b, 3);
    if lead < 0x80 then (lead as char, 1)
    else if lead < 0xC2 || lead > 0xF4 || !Second(lead, x) then (REPLACEMENT, 1)
    else if lead < 0xE0 then (((lead - 0xC0) * 64 + (x - 0x80)) as char, 2)
    else if !Continues(y) then (REPLACEMENT, 2)
    else if lead < 0xF0 then (((lead - 0xE0) * 4096 + (x - 0x80) * 64 + (y - 0x80)) as char, 3)
    else if !Continues(z) then (REPLACEMENT, 3)
    else (((lead - 0xF0) * 262144 + (x - 0x80) * 4096 + (y - 0x80) * 64 + (z - 0x80)) as char, 4)
  }

  function Text(b: seq<Byte>): string {
    if b == [] then [] else var (c, n) := DecodeOne(b); [c] + Text(b[n..])
  }

  /** The bytes are the encoding of some text. */
  ghost predicate WellFormed(b: seq<Byte>) {
    exists s :: Bytes(s) == b
  }

  // ---------------------------------------------------------------------------
  // Round trip

  lemma DecodeFirst(c: char, rest: seq<Byte>)
    ensures DecodeOne(EncodeChar(c) + rest) == (c, |EncodeChar(c)|)
  {
    var n := c as int;
    var b := EncodeChar(c) + rest;
    if n >= 0x10000 {
      FourParts(n);
      assert b[0] == 0xF0 + n / 262144 && b[1] == 0x80 + n / 4096 % 64 && b[2] == 0x80 + n / 64 % 64 && b[3] == 0x80 + n % 64;
    } else if n >= 0x800 {
      FourParts(n);
      assert b[0] == 0xE0 + n / 4096 && b[1] == 0x80 + n / 64 % 64 && b[2] == 0x80 + n % 64;
    } else if n >= 0x80 {
      assert b[0] == 0xC0 + n / 64 && b[1] == 0x80 + n % 64;
    }
  }

  lemma FourParts(n: nat)
    ensures n == n / 64 * 64 + n % 64
    ensures n / 64 == n / 4096 * 64 + n / 64 % 64
    ensures n / 4096 == n / 262144 * 64 + n / 4096 % 64
  {
    assert n / 64 / 64 == n / 4096;
    assert n / 4096 / 64 == n / 262144;
  }

  lemma {:induction false} TextOfBytes(s: string, rest: seq<Byte>)
    ensures Text(Bytes(s) + rest) == s + Text(rest)
  {
    if s == [] {
      assert Bytes(s) + rest == rest;
    } else {
      var more := Bytes(s[1..]) + rest;
      TextFirst(s[0], more);
      TextOfBytes(s[1..], rest);
      Associative(EncodeChar(s[0]), Bytes(s[1..]), rest);
      Associative([s[0]], s[1..], Text(rest));
      assert [s[0]] + s[1..] == s;
    }
  }

  lemma Associative<T>(a: seq<T>, b: seq<T>, c: seq<T>)
    ensures (a + b) + c == a + (b + c)
  {
  }

  lemma TextFirst(c: char, rest: seq<Byte>)
    ensures Text(EncodeChar(c) + rest) == [c] + Text(rest)
  {
    DecodeFirst(c, rest);
    After(EncodeChar(c), rest);
  }

  lemma After(a: seq<Byte>, b: seq<Byte>)
    ensures (a + b)[|a|..] == b
  {
  }

  /** Every text is read back from its encoding. */
  lemma TextRoundTrip(s: string)
    ensures Text(Bytes(s)) == s
  {
    TextOfBytes(s, []);
    assert Bytes(s) + [] == Bytes(s);
  }

  /** Decoding the bytes loses nothing. */
  predicate Lossless(b: seq<Byte>) {
    Bytes(Text(b)) == b
  }

  lemma WellFormedIff(b: seq<Byte>)
    ensures WellFormed(b) <==> Lossless(b)
  {
    if WellFormed(b) {
      var s :| Bytes(s) == b;
      TextRoundTrip(s);
    }
  }

  /** Whether something is lost can be seen piece by piece. */
  lemma LosslessPiece(b: seq<Byte>)
    requires b != []
    ensures var (c, n) := DecodeOne(b); Lossless(b) <==> EncodeChar(c) == b[..n] && Lossless(b[n..])
  {
    var (c, n) := DecodeOne(b);
    var first, rest := EncodeChar(c), Bytes(Text(b[n..]));
    assert ([c] + Text(b[n..]))[1..] == Text(b[n..]);
    assert Bytes(Text(b)) == first + rest;
    if Lossless(b) {
      DecodeFirst(c, rest);
      assert |first| == n;
      assert b[..n] == first && b[n..] == rest;
    }
    if first == b[..n] && Lossless(b[n..]) {
      assert b == b[..n] + b[n..];
    }
  }

  // ---------------------------------------------------------------------------
  // How far the decoder looks

  /** The next byte is the same, or continues nothing in either case. */
  predicate SameNext(b: seq<Byte>, c: seq<Byte>, n: nat) {
    ByteAt(b, n) == ByteAt(c, n) || (ByteAt(b, n) < 0x80 && ByteAt(c, n) < 0x80)
  }

  /** The first character depends on its own bytes and on the kind of the next byte only. */
  lemma Local(b: seq<Byte>, c: seq<Byte>)
    requires b != [] && DecodeOne(b).1 <= |c|
    requires forall k :: 0 <= k < DecodeOne(b).1 ==> b[k] == c[k]
    requires SameNext(b, c, DecodeOne(b).1)
    ensures DecodeOne(c) == DecodeOne(b)
  {
    var n := DecodeOne(b).1;
    assert forall k :: 0 <= k < n ==> ByteAt(b, k) == ByteAt(c, k) == b[k];
  }

  /** Decoding does not reach across a byte that is a character by itself. */
  lemma {:induction false} Concat(x: seq<Byte>, y: seq<Byte>)
    requires ByteAt(y, 0) < 0x80
    ensures Text(x + y) == Text(x) + Text(y)
    decreases |x|
  {
    if x == [] {
      assert x + y == y;
    } else {
      var (c, n) := DecodeOne(x);
      assert SameNext(x, x + y, n) by {
        if n == |x| && y != [] {
          assert (x + y)[n] == y[0];
        }
      }
      Local(x, x + y);
      Dropped(x, y, n);
      Concat(x[n..], y);
      Associative([c], Text(x[n..]), Text(y));
    }
  }

  lemma Dropped(x: seq<Byte>, y: seq<Byte>, n: nat)
    requires n <= |x|
    ensures (x + y)[n..] == x[n..] + y
  {
  }

  /** The bytes after the first one of a piece are not characters by themselves. */
  lemma NoAsciiInside(b: seq<Byte>, k: nat)
    requires b != [] && 1 <= k < DecodeOne(b).1
    ensures b[k] >= 0x80
  {
  }

  /** What the decoder accepts is exactly the encoding of what it says; everything else is replaced. */
  lemma PieceIsExact(b: seq<Byte>)
    requires b != []
    ensures var (c, n) := DecodeOne(b); EncodeChar(c) == b[..n] || c == REPLACEMENT
  {
    var (c, n) := DecodeOne(b);
    if c != REPLACEMENT {
      match n
      case 1 => assert b[..1] == [b[0]];
      case 2 => TwoBytes(b[0], b[1]); assert b[..2] == [b[0], b[1]];
      case 3 => ThreeBytes(b[0], b[1], b[2]); assert b[..3] == [b[0], b[1], b[2]];
      case _ => FourBytes(b[0], b[1], b[2], b[3]); assert b[..4] == [b[0], b[1], b[2], b[3]];
    }
  }

  lemma OffDigit(m: nat, d: nat)
    requires d < 64
    ensures (64 * m + d) / 64 == m && (64 * m + d) % 64 == d
  {
  }

  lemma TwoBytes(lead: Byte, x: Byte)
    requires 0xC2 <= lead < 0xE0 && Continues(x)
    ensures var n := (lead as int - 0xC0) * 64 + (x as int - 0x80);
            0x80 <= n < 0x800 && 0xC0 + n / 64 == lead && 0x80 + n % 64 == x
  {
  }

  lemma ThreeBytes(lead: Byte, x: Byte, y: Byte)
    requires 0xE0 <= lead < 0xF0 && Second(lead, x) && Continues(y)
    ensures var n := (lead as int - 0xE0) * 4096 + (x as int - 0x80) * 64 + (y as int - 0x80);
            0x800 <= n < 0x10000 && 0xE0 + n / 4096 == lead && 0x80 + n / 64 % 64 == x && 0x80 + n % 64 == y
  {
    var (a, b, c) := (lead as int - 0xE0, x as int - 0x80, y as int - 0x80);
    var m := 64 * a + b;
    OffDigit(a, b);
    OffDigit(m, c);
    assert (64 * m + c) / 4096 == m / 64;
  }

  lemma FourBytes(lead: Byte, x: Byte, y: Byte, z: Byte)
    requires 0xF0 <= lead <= 0xF4 && Second(lead, x) && Continues(y) && Continues(z)
    ensures var n := (lead as int - 0xF0) * 262144 + (x as int - 0x80) * 4096 + (y as int - 0x80) * 64 + (z as int - 0x80);
            && 0x10000 <= n && 0xF0 + n / 262144 == lead
            && 0x80 + n / 4096 % 64 == x && 0x80 + n / 64 % 64 == y && 0x80 + n % 64 == z
  {
    var (a, b, c, d) := (lead as int - 0xF0, x as int - 0x80, y as int - 0x80, z as int - 0x80);
    var m := 64 * a + b;
    var l := 64 * m + c;
    OffDigit(a, b);
    OffDigit(m, c);
    OffDigit(l, d);
    assert (64 * l + d) / 4096 == l / 64;
    assert (64 * l + d) / 262144 == m / 64;
  }
}
