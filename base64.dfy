/**
  Ruby's `Base64.encode64`, the MIME base64 of section 6.8 of RFC 2045 as
  `Array#pack("m")` writes it: every 45 input bytes become one line of 60
  characters, and every line, the last one included, ends with "\n". Only the
  encoder is used by the mailers; the decoder is here as its inverse, to show
  that the encoding loses nothing.
 */
module Base64 {

  type Byte = x: int | 0 <= x < 256

  /** Bytes per output line of `encode64`. */
  const LineBytes: nat := 45

  /** A Ruby String read as bytes: every character is one byte. */
  predicate IsByteString(s: string) {
    forall i :: 0 <= i < |s| ==> s[i] as int < 256
  }

  function BytesOf(s: string): (b: seq<Byte>)
    requires IsByteString(s)
    ensures |b| == |s|
  {
    seq(|s|, i requires 0 <= i < |s| => s[i] as int)
  }

  /** The 6-bit digit a character stands for (0 for characters outside the alphabet). */
  function DigitValue(c: char): (n: int)
    ensures 0 <= n < 64
  {
    if 'A' <= c <= 'Z' then c as int - 'A' as int
    else if 'a' <= c <= 'z' then c as int - 'a' as int + 26
    else if '0' <= c <= '9' then c as int - '0' as int + 52
    else if c == '+' then 62
    else if c == '/' then 63
    else 0
  }

  /** The character for a 6-bit digit: A-Z, a-z, 0-9, '+', '/'; never the padding or a line break. */
  function Digit(n: int): (c: char)
    requires 0 <= n < 64
    ensures DigitValue(c) == n
    ensures c != '=' && c != '\n'
  {
    if n < 26 then (('A' as int) + n) as char
    else if n < 52 then (('a' as int) + n - 26) as char
    else if n < 62 then (('0' as int) + n - 52) as char
    else if n == 62 then '+'
    else '/'
  }

  /** Splitting a number written as `hi * k + lo` back into its two parts. */
  lemma Unpack(hi: int, lo: int, k: int)
    requires k == 4 || k == 16 || k == 64
    requires 0 <= lo < k
    ensures (hi * k + lo) / k == hi && (hi * k + lo) % k == lo
  {
  }

  /** One group of one to three bytes as four characters, padded with '='. */
  function EncodeGroup(b: seq<Byte>): (r: string)
    requires 1 <= |b| <= 3
    ensures |r| == 4
  {
    var c0 := Digit(b[0] / 4);
    if |b| == 1 then
      [c0, Digit((b[0] % 4) * 16), '=', '=']
    else if |b| == 2 then
      [c0, Digit((b[0] % 4) * 16 + b[1] / 16), Digit((b[1] % 16) * 4), '=']
    else
      [c0, Digit((b[0] % 4) * 16 + b[1] / 16), Digit((b[1] % 16) * 4 + b[2] / 64), Digit(b[2] % 64)]
  }

  /** The characters of one line, without its line break. */
  function EncodeLine(b: seq<Byte>): string
    decreases |b|
  {
    if |b| == 0 then ""
    else if |b| <= 3 then EncodeGroup(b)
    else EncodeGroup(b[..3]) + EncodeLine(b[3..])
  }

  /** `Base64.encode64` */
  function Encode64(b: seq<Byte>): string
    decreases |b|
  {
    if |b| == 0 then ""
    else if |b| <= LineBytes then EncodeLine(b) + "\n"
    else EncodeLine(b[..LineBytes]) + "\n" + Encode64(b[LineBytes..])
  }

  function StripNewlines(s: string): string
    decreases |s|
  {
    if |s| == 0 then ""
    else if s[0] == '\n' then StripNewlines(s[1..])
    else [s[0]] + StripNewlines(s[1..])
  }

  /** Four characters back to the one to three bytes they encode. */
  function DecodeGroup(g: string): seq<Byte>
    requires |g| == 4
  {
    var d0, d1, d2, d3 := DigitValue(g[0]), DigitValue(g[1]), DigitValue(g[2]), DigitValue(g[3]);
    var b0: Byte := d0 * 4 + d1 / 16;
    var b1: Byte := (d1 % 16) * 16 + d2 / 4;
    var b2: Byte := (d2 % 4) * 64 + d3;
    if g[2] == '=' then [b0]
    else if g[3] == '=' then [b0, b1]
    else [b0, b1, b2]
  }

  function DecodeGroups(s: string): seq<Byte>
    decreases |s|
  {
    if |s| < 4 then []
    else DecodeGroup(s[..4]) + DecodeGroups(s[4..])
  }

  /** The inverse of `Encode64`: line breaks are dropped, then every group decoded. */
  function Decode64(s: string): seq<Byte> {
    DecodeGroups(StripNewlines(s))
  }

  lemma GroupRoundTrip(b: seq<Byte>)
    requires 1 <= |b| <= 3
    ensures DecodeGroup(EncodeGroup(b)) == b
  {
    Unpack(b[0] / 4, b[0] % 4, 4);
    if |b| == 1 {
      Unpack(b[0] % 4, 0, 16);
    } else {
      Unpack(b[0] % 4, b[1] / 16, 16);
      if |b| == 2 {
        Unpack(b[1] % 16, 0, 4);
      } else {
        Unpack(b[1] % 16, b[2] / 64, 4);
        Unpack(b[2] / 64, b[2] % 64, 64);
      }
      Unpack(b[1] / 16, b[1] % 16, 16);
    }
  }

  lemma {:induction false} LineHasNoBreaks(b: seq<Byte>)
    ensures forall i :: 0 <= i < |EncodeLine(b)| ==> EncodeLine(b)[i] != '\n'
    decreases |b|
  {
    if |b| > 3 {
      LineHasNoBreaks(b[3..]);
    }
  }

  lemma {:induction false} StripConcat(s: string, t: string)
    ensures StripNewlines(s + t) == StripNewlines(s) + StripNewlines(t)
    decreases |s|
  {
    if |s| > 0 {
      assert (s + t)[1..] == s[1..] + t;
      StripConcat(s[1..], t);
    } else {
      assert s + t == t;
    }
  }

  lemma {:induction false} StripNothing(s: string)
    requires forall i :: 0 <= i < |s| ==> s[i] != '\n'
    ensures StripNewlines(s) == s
    decreases |s|
  {
    if |s| > 0 {
      StripNothing(s[1..]);
    }
  }

  lemma Associative(a: string, b: string, c: string)
    ensures a + (b + c) == (a + b) + c
  {
  }

  /** A line of at least three bytes starts with the group of its first three. */
  lemma LineStep(b: seq<Byte>)
    requires |b| >= 3
    ensures EncodeLine(b) == EncodeGroup(b[..3]) + EncodeLine(b[3..])
  {
    if |b| == 3 {
      assert b[..3] == b;
    }
  }

  /** Encoding splits after a whole number of groups. */
  lemma {:induction false} LineSplit(x: seq<Byte>, y: seq<Byte>, groups: nat)
    requires |x| == 3 * groups
    ensures EncodeLine(x + y) == EncodeLine(x) + EncodeLine(y)
    decreases groups
  {
    if groups == 0 {
      assert x + y == y;
    } else {
      var xy := x + y;
      assert xy[..3] == x[..3];
      assert xy[3..] == x[3..] + y;
      LineStep(xy);
      LineStep(x);
      LineSplit(x[3..], y, groups - 1);
      Associative(EncodeGroup(x[..3]), EncodeLine(x[3..]), EncodeLine(y));
    }
  }

  lemma {:induction false} StrippedEncoding(b: seq<Byte>)
    ensures StripNewlines(Encode64(b)) == EncodeLine(b)
    decreases |b|
  {
    if 0 < |b| <= LineBytes {
      LineHasNoBreaks(b);
      StripConcat(EncodeLine(b), "\n");
      StripNothing(EncodeLine(b));
    } else if |b| > LineBytes {
      var head, tail := b[..LineBytes], b[LineBytes..];
      LineHasNoBreaks(head);
      StrippedEncoding(tail);
      StripConcat(EncodeLine(head) + "\n", Encode64(tail));
      StripConcat(EncodeLine(head), "\n");
      StripNothing(EncodeLine(head));
      LineSplit(head, tail, LineBytes / 3);
      assert head + tail == b;
    }
  }

  lemma {:induction false} LineRoundTrip(b: seq<Byte>)
    ensures DecodeGroups(EncodeLine(b)) == b
    decreases |b|
  {
    if 0 < |b| <= 3 {
      GroupRoundTrip(b);
      assert EncodeLine(b)[..4] == EncodeGroup(b);
      assert EncodeLine(b)[4..] == "";
    } else if |b| > 3 {
      var s := EncodeLine(b);
      GroupRoundTrip(b[..3]);
      LineRoundTrip(b[3..]);
      assert s[..4] == EncodeGroup(b[..3]);
      assert s[4..] == EncodeLine(b[3..]);
      assert b[..3] + b[3..] == b;
    }
  }

  /** Decoding what `encode64` wrote gives back the original bytes. */
  lemma RoundTrip(b: seq<Byte>)
    ensures Decode64(Encode64(b)) == b
  {
    StrippedEncoding(b);
    LineRoundTrip(b);
  }

  /** So two byte strings encode alike only when they are equal. */
  lemma EncodeInjective(a: seq<Byte>, b: seq<Byte>)
    requires Encode64(a) == Encode64(b)
    ensures a == b
  {
    RoundTrip(a);
    RoundTrip(b);
  }
}
