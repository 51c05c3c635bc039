/** Base64 as section 4 of RFC 4648 defines it (alphabet `A-Z a-z 0-9 + /`,
    `=` padding): Node's `Buffer.toString("base64")` on one side and the
    browser's `atob`, which decodes "forgivingly", on the other. */
module Base64 {
  import opened Wrappers
  import opened Latin1

  /** The digit with value `i`. */
  function Digit(i: int): (c: char)
    requires 0 <= i < 64
  {
    if i < 26 then (65 + i) as char
    else if i < 52 then (71 + i) as char
    else if i < 62 then (i - 4) as char
    else if i == 62 then '+'
    else '/'
  }

  /** The value of a digit, or `None` for any other character. */
  function DigitValue(c: char): (r: Option<int>)
    ensures r.Some? ==> 0 <= r.value < 64 && Digit(r.value) == c
  {
    var n := c as int;
    if 65 <= n <= 90 then Some(n - 65)
    else if 97 <= n <= 122 then Some(n - 71)
    else if 48 <= n <= 57 then Some(n + 4)
    else if c == '+' then Some(62)
    else if c == '/' then Some(63)
    else None
  }

  lemma DigitRoundTrip(i: int)
    requires 0 <= i < 64
    ensures DigitValue(Digit(i)) == Some(i)
  {
  }

  predicate IsDigit(c: char)
  {
    DigitValue(c).Some?
  }

  predicate AllDigits(s: string)
  {
    forall k :: 0 <= k < |s| ==> IsDigit(s[k])
  }

  /** The four digits of three bytes. */
  function EncodeGroup(a: byte, b: byte, c: byte): (r: string)
    ensures |r| == 4 && AllDigits(r)
  {
    DigitRoundTrip(a / 4);
    DigitRoundTrip((a % 4) * 16 + b / 16);
    DigitRoundTrip((b % 16) * 4 + c / 64);
    DigitRoundTrip(c % 64);
    [Digit(a / 4), Digit((a % 4) * 16 + b / 16), Digit((b % 16) * 4 + c / 64), Digit(c % 64)]
  }

  /** The digits of `b` without the padding: the final group of one or two
      bytes gives two or three digits, its unused low bits zero. */
  function EncodeDigits(b: seq<byte>): (r: string)
    ensures AllDigits(r)
  {
    if |b| == 0 then ""
    else if |b| == 1 then
      DigitRoundTrip(b[0] / 4);
      DigitRoundTrip((b[0] % 4) * 16);
      [Digit(b[0] / 4), Digit((b[0] % 4) * 16)]
    else if |b| == 2 then
      DigitRoundTrip(b[0] / 4);
      DigitRoundTrip((b[0] % 4) * 16 + b[1] / 16);
      DigitRoundTrip((b[1] % 16) * 4);
      [Digit(b[0] / 4), Digit((b[0] % 4) * 16 + b[1] / 16), Digit((b[1] % 16) * 4)]
    else EncodeGroup(b[0], b[1], b[2]) + EncodeDigits(b[3..])
  }

  /** `Buffer.from(b).toString("base64")`: the digits, padded with `=` to a
      multiple of four characters. */
  function Encode(b: seq<byte>): (r: string)
    ensures |r| % 4 == 0 && |r| == (|b| + 2) / 3 * 4
  {
    var d := EncodeDigits(b);
    DigitsLength(b);
    PaddedLength(|b|);
    if |b| % 3 == 1 then d + "==" else if |b| % 3 == 2 then d + "=" else d
  }

  /** The digits and the padding of `n` bytes fill whole groups of four. */
  lemma PaddedLength(n: nat)
    ensures var q, r := n / 3, n % 3;
      q * 4 + (if r == 0 then 0 else r + 1) + (if r == 1 then 2 else if r == 2 then 1 else 0) == (n + 2) / 3 * 4
    ensures (n + 2) / 3 * 4 % 4 == 0
  {
    var q, r := n / 3, n % 3;
    assert n == 3 * q + r;
    assert (n + 2) / 3 == q + (if r == 0 then 0 else 1);
  }

  /** Three bytes give four digits, and a final one or two bytes two or three. */
  lemma {:induction false} DigitsLength(b: seq<byte>)
    ensures |EncodeDigits(b)| == |b| / 3 * 4 + (if |b| % 3 == 0 then 0 else |b| % 3 + 1)
    decreases |b|
  {
    if |b| >= 3 {
      DigitsLength(b[3..]);
    }
  }

  /** The three bytes whose 24 bits the four digit values hold. */
  function DecodeGroup(i0: int, i1: int, i2: int, i3: int): seq<byte>
    requires 0 <= i0 < 64 && 0 <= i1 < 64 && 0 <= i2 < 64 && 0 <= i3 < 64
  {
    [i0 * 4 + i1 / 16, (i1 % 16) * 16 + i2 / 4, (i2 % 4) * 64 + i3]
  }

  /** The bytes of a run of digits: whole groups of four, then a final group
      of two or three digits whose low 4 or 2 bits are dropped. A run whose
      length leaves one digit over is refused. */
  function DecodeDigits(s: string): (r: Option<seq<byte>>)
    requires AllDigits(s)
    ensures r.Some? <==> |s| % 4 != 1
  {
    if |s| == 0 then Some([])
    else if |s| == 1 then None
    else
      var i0 := DigitValue(s[0]).value;
      var i1 := DigitValue(s[1]).value;
      if |s| == 2 then Some([i0 * 4 + i1 / 16])
      else
        var i2 := DigitValue(s[2]).value;
        if |s| == 3 then Some([i0 * 4 + i1 / 16, (i1 % 16) * 16 + i2 / 4])
        else
          var rest := DecodeDigits(s[4..]);
          assert |s[4..]| % 4 == |s| % 4 by { Shift4(|s|); }
          if rest.None? then None
          else Some(DecodeGroup(i0, i1, i2, DigitValue(s[3]).value) + rest.value)
  }

  lemma Shift4(n: int)
    requires n >= 4
    ensures (n - 4) % 4 == n % 4
  {
  }

  /** The ASCII white space `atob` skips. */
  predicate IsAsciiSpace(c: char)
  {
    c == ' ' || c == '\t' || c == '\n' || c as int == 12 || c == '\r'
  }

  function RemoveSpace(s: string): (r: string)
    ensures forall k :: 0 <= k < |r| ==> !IsAsciiSpace(r[k])
  {
    if |s| == 0 then ""
    else if IsAsciiSpace(s[0]) then RemoveSpace(s[1..])
    else [s[0]] + RemoveSpace(s[1..])
  }

  /** Drops one or two final `=` from a text whose length is a multiple of four. */
  function DropPadding(s: string): (r: string)
    ensures |r| <= |s| && r == s[..|r|]
  {
    if |s| % 4 != 0 then s
    else if |s| >= 2 && s[|s| - 2..] == "==" then s[..|s| - 2]
    else if |s| >= 1 && s[|s| - 1] == '=' then s[..|s| - 1]
    else s
  }

  /** `atob(s)`: the binary string of the decoded bytes, or `None` where the
      browser throws (a character outside the alphabet, or a length that
      leaves a single digit over). */
  function Atob(s: string): (r: Option<string>)
    ensures r.Some? ==> IsLatin1(r.value)
  {
    var data := DropPadding(RemoveSpace(s));
    if !AllDigits(data) then None
    else
      var bytes := DecodeDigits(data);
      if bytes.None? then None else Some(BinaryString(bytes.value))
  }

  /** Decoding the digits of `b` gives `b` back. */
  lemma {:induction false} DecodeEncodeDigits(b: seq<byte>)
    ensures DecodeDigits(EncodeDigits(b)) == Some(b)
    decreases |b|
  {
    if |b| == 1 {
      OneByteRoundTrip(b);
    } else if |b| == 2 {
      TwoBytesRoundTrip(b);
    } else if |b| >= 3 {
      var d := EncodeDigits(b);
      var g := EncodeGroup(b[0], b[1], b[2]);
      DecodeEncodeDigits(b[3..]);
      assert d[..4] == g && d[4..] == EncodeDigits(b[3..]);
      GroupRoundTrip(b[0], b[1], b[2]);
      assert d[0] == g[0] && d[1] == g[1] && d[2] == g[2] && d[3] == g[3];
      assert DecodeDigits(d) == Some([b[0], b[1], b[2]] + b[3..]);
      assert b == [b[0], b[1], b[2]] + b[3..];
    }
  }

  lemma OneByteRoundTrip(b: seq<byte>)
    requires |b| == 1
    ensures DecodeDigits(EncodeDigits(b)) == Some(b)
  {
    var x := b[0];
    var i0, i1 := x / 4, (x % 4) * 16;
    var d := EncodeDigits(b);
    assert d == [Digit(i0), Digit(i1)];
    DecodeTwo(i0, i1, x);
    assert b == [x];
  }

  lemma TwoBytesRoundTrip(b: seq<byte>)
    requires |b| == 2
    ensures DecodeDigits(EncodeDigits(b)) == Some(b)
  {
    var x, y := b[0], b[1];
    var i0, i1, i2 := x / 4, (x % 4) * 16 + y / 16, (y % 16) * 4;
    var d := EncodeDigits(b);
    assert d == [Digit(i0), Digit(i1), Digit(i2)];
    TwoBytesArithmetic(x, y, i0, i1, i2);
    DecodeThree(i0, i1, i2, x, y);
    assert b == [x, y];
  }

  lemma TwoBytesArithmetic(x: int, y: int, i0: int, i1: int, i2: int)
    requires 0 <= x < 256 && 0 <= y < 256
    requires i0 == x / 4 && i1 == (x % 4) * 16 + y / 16 && i2 == (y % 16) * 4
    ensures i0 * 4 + i1 / 16 == x && (i1 % 16) * 16 + i2 / 4 == y
  {
    assert i1 / 16 == x % 4;
    assert i1 % 16 == y / 16;
  }

  lemma DecodeTwo(i0: int, i1: int, x: byte)
    requires 0 <= i0 < 64 && 0 <= i1 < 64 && x == i0 * 4 + i1 / 16
    ensures DecodeDigits([Digit(i0), Digit(i1)]) == Some([x])
  {
    DigitRoundTrip(i0);
    DigitRoundTrip(i1);
  }

  lemma DecodeThree(i0: int, i1: int, i2: int, x: byte, y: byte)
    requires 0 <= i0 < 64 && 0 <= i1 < 64 && 0 <= i2 < 64
    requires x == i0 * 4 + i1 / 16 && y == (i1 % 16) * 16 + i2 / 4
    ensures DecodeDigits([Digit(i0), Digit(i1), Digit(i2)]) == Some([x, y])
  {
    DigitRoundTrip(i0);
    DigitRoundTrip(i1);
    DigitRoundTrip(i2);
  }

  lemma GroupRoundTrip(a: byte, b: byte, c: byte)
    ensures var g := EncodeGroup(a, b, c);
      DecodeGroup(DigitValue(g[0]).value, DigitValue(g[1]).value,
                  DigitValue(g[2]).value, DigitValue(g[3]).value) == [a, b, c]
  {
    var i0, i1, i2, i3 := a / 4, (a % 4) * 16 + b / 16, (b % 16) * 4 + c / 64, c % 64;
    var g := EncodeGroup(a, b, c);
    DigitRoundTrip(i0);
    DigitRoundTrip(i1);
    DigitRoundTrip(i2);
    DigitRoundTrip(i3);
    assert DigitValue(g[0]) == Some(i0) && DigitValue(g[1]) == Some(i1);
    assert DigitValue(g[2]) == Some(i2) && DigitValue(g[3]) == Some(i3);
    GroupArithmetic(a, b, c, i0, i1, i2, i3);
  }

  lemma GroupArithmetic(x: int, y: int, z: int, i0: int, i1: int, i2: int, i3: int)
    requires 0 <= x < 256 && 0 <= y < 256 && 0 <= z < 256
    requires i0 == x / 4 && i1 == (x % 4) * 16 + y / 16 && i2 == (y % 16) * 4 + z / 64 && i3 == z % 64
    ensures i0 * 4 + i1 / 16 == x && (i1 % 16) * 16 + i2 / 4 == y && (i2 % 4) * 64 + i3 == z
  {
    assert i1 / 16 == x % 4;
    assert i1 % 16 == y / 16;
    assert i2 / 4 == y % 16;
    assert i2 % 4 == z / 64;
  }

  /** What `atob` decodes from `Buffer.toString("base64")` is the original
      bytes, as a binary string. */
  lemma AtobEncode(b: seq<byte>)
    ensures Atob(Encode(b)) == Some(BinaryString(b))
  {
    var e := Encode(b);
    PaddingDropped(b);
    NoSpaceUnchanged(e);
    assert DropPadding(RemoveSpace(e)) == EncodeDigits(b);
    DecodeEncodeDigits(b);
  }

  /** The padding `Encode` adds is what `DropPadding` takes off. */
  lemma PaddingDropped(b: seq<byte>)
    ensures DropPadding(Encode(b)) == EncodeDigits(b)
    ensures forall k :: 0 <= k < |Encode(b)| ==> IsDigit(Encode(b)[k]) || Encode(b)[k] == '='
  {
    var e := Encode(b);
    var d := EncodeDigits(b);
    DigitsLength(b);
    if |b| % 3 == 1 {
      assert e[|e| - 2..] == "==" && e[..|e| - 2] == d;
    } else if |b| % 3 == 2 {
      assert e[|e| - 2] == d[|d| - 1] && IsDigit(e[|e| - 2]);
      assert e[|e| - 2..] != "==";
      assert e[..|e| - 1] == d;
    } else if |e| > 0 {
      assert e[|e| - 1] == d[|d| - 1] && IsDigit(e[|e| - 1]);
    }
  }

  lemma {:induction false} NoSpaceUnchanged(s: string)
    requires forall k :: 0 <= k < |s| ==> IsDigit(s[k]) || s[k] == '='
    ensures RemoveSpace(s) == s
    decreases |s|
  {
    if |s| > 0 {
      NoSpaceUnchanged(s[1..]);
      assert s == [s[0]] + s[1..];
    }
  }
}
