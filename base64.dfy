/** The base 64 encoding of section 4 of RFC 4648 with padding (Go's `base64.StdEncoding`),
    which turns a unique-id digest into the string stored in the event's `Id`. */
module Base64 {
  import opened Bytes

  /** The 64 characters of the standard alphabet: `A`-`Z`, `a`-`z`, `0`-`9`, `+`, `/`. */
  predicate InAlphabet(c: char)
  {
    ('A' <= c <= 'Z') || ('a' <= c <= 'z') || ('0' <= c <= '9') || c == '+' || c == '/'
  }

  const Pad: char := '='

  /** The alphabet character of a six-bit value. */
  function Digit(v: int): (c: char)
    requires 0 <= v < 64
    ensures InAlphabet(c)
  {
    if v < 26 then ('A' as int + v) as char
    else if v < 52 then ('a' as int + (v - 26)) as char
    else if v < 62 then ('0' as int + (v - 52)) as char
    else if v == 62 then '+'
    else '/'
  }

  /** One group of one to three bytes as four characters; a group of one or two bytes is
      zero-filled and padded with two or one `=`. */
  function Group(g: seq<byte>): (r: string)
    requires 1 <= |g| <= 3
    ensures |r| == 4
    ensures forall i :: 0 <= i < 4 - (3 - |g|) ==> InAlphabet(r[i])
    ensures forall i :: 4 - (3 - |g|) <= i < 4 ==> r[i] == Pad
  {
    var b1 := if |g| > 1 then g[1] else 0;
    var b2 := if |g| > 2 then g[2] else 0;
    var c0 := Digit(g[0] / 4);
    var c1 := Digit((g[0] % 4) * 16 + b1 / 16);
    var c2 := if |g| > 1 then Digit((b1 % 16) * 4 + b2 / 64) else Pad;
    var c3 := if |g| > 2 then Digit(b2 % 64) else Pad;
    [c0, c1, c2, c3]
  }

  /** The length of the encoding of `n` bytes: four characters per group of up to three. */
  function EncodedLength(n: nat): nat
  {
    if n == 0 then 0 else if n < 3 then 4 else 4 + EncodedLength(n - 3)
  }

  lemma {:induction false} EncodedLengthFormula(n: nat)
    ensures EncodedLength(n) == 4 * ((n + 2) / 3)
  {
    if n >= 3 {
      EncodedLengthFormula(n - 3);
      assert (n + 2) / 3 == (n - 3 + 2) / 3 + 1;
    }
  }

  /** Each group of three input bytes becomes four characters; a last, shorter group is padded. */
  function Encode(s: seq<byte>): (r: string)
    ensures |r| == EncodedLength(|s|)
    decreases |s|
  {
    if |s| == 0 then ""
    else if |s| < 3 then Group(s)
    else Group(s[..3]) + Encode(s[3..])
  }

  /** Every character of an encoding is in the alphabet or is padding, and there is no padding
      when the input length is a multiple of three. */
  lemma {:induction false} EncodeAlphabet(s: seq<byte>)
    ensures forall i :: 0 <= i < |Encode(s)| ==> InAlphabet(Encode(s)[i]) || Encode(s)[i] == Pad
    ensures |s| % 3 == 0 ==> forall i :: 0 <= i < |Encode(s)| ==> InAlphabet(Encode(s)[i])
    decreases |s|
  {
    if |s| >= 3 {
      var head, tail := Group(s[..3]), Encode(s[3..]);
      EncodeAlphabet(s[3..]);
      assert Encode(s) == head + tail;
      forall i | 0 <= i < |Encode(s)|
        ensures InAlphabet(Encode(s)[i]) || Encode(s)[i] == Pad
        ensures |s| % 3 == 0 ==> InAlphabet(Encode(s)[i])
      {
        if i >= 4 {
          assert Encode(s)[i] == tail[i - 4];
        }
      }
    }
  }

  /** A 32-byte input, the length of a K12 digest, encodes to 44 characters ending in one `=`. */
  lemma DigestEncodingShape(d: seq<byte>)
    requires |d| == 32
    ensures |Encode(d)| == 44
    ensures Encode(d)[43] == Pad
    ensures forall i :: 0 <= i < 43 ==> InAlphabet(Encode(d)[i])
  {
    var head, tail := Encode(d[..30]), Encode(d[30..]);
    EncodeSplit(d, 30);
    EncodeAlphabet(d[..30]);
    assert |d[30..]| == 2 && tail == Group(d[30..]);
    assert |head| == 40;
    forall i | 0 <= i < 43 ensures InAlphabet(Encode(d)[i]) {
      if i < 40 {
        assert Encode(d)[i] == head[i];
      } else {
        assert Encode(d)[i] == tail[i - 40];
      }
    }
  }

  /** Encoding a prefix whose length is a multiple of three, then the rest, is encoding the whole. */
  lemma {:induction false} EncodeSplit(s: seq<byte>, k: nat)
    requires k <= |s| && k % 3 == 0
    ensures Encode(s) == Encode(s[..k]) + Encode(s[k..])
    decreases k
  {
    if k == 0 {
      assert s[..0] == [] && s[0..] == s;
    } else {
      var rest := s[3..];
      EncodeSplit(rest, k - 3);
      assert rest[..k - 3] == s[..k][3..];
      assert rest[k - 3..] == s[k..];
      assert s[..k][..3] == s[..3];
      calc {
        Encode(s);
        Group(s[..3]) + Encode(rest);
        Group(s[..3]) + (Encode(s[..k][3..]) + Encode(s[k..]));
        (Group(s[..k][..3]) + Encode(s[..k][3..])) + Encode(s[k..]);
        Encode(s[..k]) + Encode(s[k..]);
      }
    }
  }
}
