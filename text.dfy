/** String operations with the meaning the JavaScript built-ins used by the
    routes and pages give them: `indexOf`, `includes`, `split` with a string
    separator, `join`, `trim`, `toLowerCase` (ASCII letters only) and
    number-to-decimal conversion. */
module JsText {

  /** `t` occurs in `s` at position `i`. */
  predicate OccursAt(s: string, t: string, i: int)
  {
    0 <= i && i + |t| <= |s| && s[i..i + |t|] == t
  }

  /** `s.indexOf(t)`: the first position at which `t` occurs, or -1. */
  function IndexOf(s: string, t: string): (r: int)
    ensures r == -1 || (0 <= r <= |s| - |t| && OccursAt(s, t, r))
    ensures r == -1 <==> forall i :: !OccursAt(s, t, i)
    ensures forall i :: 0 <= i < r ==> !OccursAt(s, t, i)
    decreases |s|
  {
    if |s| < |t| then -1
    else if s[..|t|] == t then 0
    else
      var k := IndexOf(s[1..], t);
      ShiftOccurrence(s, t);
      assert !OccursAt(s, t, 0);
      assert forall i :: OccursAt(s, t, i) ==> OccursAt(s[1..], t, i - 1);
      if k == -1 then -1 else k + 1
  }

  /** An occurrence in `s[1..]` is an occurrence in `s` one place later. */
  lemma ShiftOccurrence(s: string, t: string)
    requires |s| >= 1
    ensures forall i :: 0 <= i ==> (OccursAt(s[1..], t, i) <==> OccursAt(s, t, i + 1))
  {
    forall i | 0 <= i ensures OccursAt(s[1..], t, i) <==> OccursAt(s, t, i + 1) {
      if i + |t| <= |s| - 1 {
        assert s[1..][i..i + |t|] == s[i + 1..i + 1 + |t|];
      }
    }
  }

  /** `s.includes(t)`. */
  predicate Includes(s: string, t: string)
  {
    IndexOf(s, t) != -1
  }

  /** `s.startsWith(p)`. */
  predicate StartsWith(s: string, p: string)
  {
    |p| <= |s| && s[..|p|] == p
  }

  /** `parts.join(sep)`. */
  function Join(parts: seq<string>, sep: string): string
  {
    if |parts| == 0 then ""
    else if |parts| == 1 then parts[0]
    else parts[0] + sep + Join(parts[1..], sep)
  }

  /** `s.split(sep)` for a non-empty string separator: the pieces between the
      leftmost non-overlapping occurrences of `sep`. Joining the pieces with
      `sep` gives `s` back, and no piece contains `sep`. */
  function Split(s: string, sep: string): (parts: seq<string>)
    requires |sep| > 0
    ensures |parts| >= 1
    ensures Join(parts, sep) == s
    ensures forall k :: 0 <= k < |parts| ==> IndexOf(parts[k], sep) == -1
    decreases |s|
  {
    var i := IndexOf(s, sep);
    if i == -1 then [s]
    else
      var rest := Split(s[i + |sep|..], sep);
      BeforeFirst(s, sep, i);
      JoinFront(s[..i], rest, sep, s[i + |sep|..]);
      FreeInFront(s[..i], rest, sep);
      assert s == s[..i] + sep + s[i + |sep|..];
      [s[..i]] + rest
  }

  /** A piece free of the separator in front of pieces free of it. */
  lemma FreeInFront(a: string, rest: seq<string>, sep: string)
    requires IndexOf(a, sep) == -1
    requires forall k :: 0 <= k < |rest| ==> IndexOf(rest[k], sep) == -1
    ensures forall k :: 0 <= k < |[a] + rest| ==> IndexOf(([a] + rest)[k], sep) == -1
  {
    forall k | 0 <= k < |[a] + rest| ensures IndexOf(([a] + rest)[k], sep) == -1 {
      if k > 0 {
        assert ([a] + rest)[k] == rest[k - 1];
      }
    }
  }

  /** Joining a piece in front of pieces that join to `tail`. */
  lemma JoinFront(a: string, rest: seq<string>, sep: string, tail: string)
    requires |rest| >= 1 && Join(rest, sep) == tail
    ensures Join([a] + rest, sep) == a + sep + tail
  {
    assert ([a] + rest)[1..] == rest;
  }

  /** Every cut `split` makes is the leftmost one: a piece followed by the
      separator first meets the separator where the piece ends, so the first
      piece is the text before the first occurrence, and a text without the
      separator is one piece. Together with the contract of `Split` this
      leaves one possible result even for a separator that overlaps itself. */
  lemma {:induction false} SplitCuts(s: string, sep: string)
    requires |sep| > 0
    ensures var parts := Split(s, sep);
      && (forall k :: 0 <= k < |parts| - 1 ==> IndexOf(parts[k] + sep, sep) == |parts[k]|)
      && (IndexOf(s, sep) == -1 ==> parts == [s])
      && (IndexOf(s, sep) >= 0 ==> parts[0] == s[..IndexOf(s, sep)])
    decreases |s|
  {
    var i := IndexOf(s, sep);
    if i >= 0 {
      var rest := Split(s[i + |sep|..], sep);
      SplitCuts(s[i + |sep|..], sep);
      FirstCut(s, sep, i);
      CutInFront(s[..i], sep, rest);
    }
  }

  /** Putting a piece whose cut is leftmost in front of pieces whose cuts
      are leftmost keeps every cut leftmost. */
  lemma CutInFront(a: string, sep: string, rest: seq<string>)
    requires IndexOf(a + sep, sep) == |a|
    requires forall k :: 0 <= k < |rest| - 1 ==> IndexOf(rest[k] + sep, sep) == |rest[k]|
    ensures var parts := [a] + rest;
      forall k :: 0 <= k < |parts| - 1 ==> IndexOf(parts[k] + sep, sep) == |parts[k]|
  {
    var parts := [a] + rest;
    forall k | 0 <= k < |parts| - 1 ensures IndexOf(parts[k] + sep, sep) == |parts[k]| {
      if k > 0 {
        assert parts[k] == rest[k - 1];
      }
    }
  }

  /** The text up to the first occurrence holds none, and with the
      separator after it first meets the separator there. */
  lemma FirstCut(s: string, sep: string, i: int)
    requires |sep| > 0 && i == IndexOf(s, sep) && i >= 0
    ensures IndexOf(s[..i], sep) == -1
    ensures IndexOf(s[..i] + sep, sep) == i
  {
    BeforeFirst(s, sep, i);
    AtFirst(s, sep, i);
  }

  lemma BeforeFirst(s: string, sep: string, i: int)
    requires |sep| > 0 && i == IndexOf(s, sep) && i >= 0
    ensures IndexOf(s[..i], sep) == -1
  {
    PrefixWindows(s, sep, i);
  }

  lemma AtFirst(s: string, sep: string, i: int)
    requires |sep| > 0 && i == IndexOf(s, sep) && i >= 0
    ensures IndexOf(s[..i] + sep, sep) == i
  {
    var n := i + |sep|;
    CutAfterFirst(s, sep, i, n);
    var u := s[..n];
    assert s[..i] + sep == u;
    FirstAt(u, sep, i);
  }

  /** Cutting `s` just after an occurrence with none before it keeps both
      facts. */
  lemma CutAfterFirst(s: string, t: string, i: int, n: int)
    requires OccursAt(s, t, i) && n == i + |t|
    requires forall j :: 0 <= j < i ==> !OccursAt(s, t, j)
    ensures OccursAt(s[..n], t, i)
    ensures forall j :: 0 <= j < i ==> !OccursAt(s[..n], t, j)
  {
    var u := s[..n];
    assert u[i..i + |t|] == s[i..i + |t|];
    forall j | 0 <= j < i ensures !OccursAt(u, t, j) {
      assert !OccursAt(s, t, j);
      assert u[j..j + |t|] == s[j..j + |t|];
    }
  }

  /** An occurrence with none before it is the first. */
  lemma FirstAt(u: string, t: string, i: int)
    requires OccursAt(u, t, i)
    requires forall j :: 0 <= j < i ==> !OccursAt(u, t, j)
    ensures IndexOf(u, t) == i
  {
  }

  /** A prefix of `s` holds an occurrence exactly where `s` holds one that
      fits in the prefix. */
  lemma PrefixWindows(s: string, t: string, n: int)
    requires 0 <= n <= |s|
    ensures forall j :: 0 <= j && j + |t| <= n ==> (OccursAt(s[..n], t, j) <==> OccursAt(s, t, j))
    ensures forall j :: j + |t| > n ==> !OccursAt(s[..n], t, j)
  {
    forall j | 0 <= j && j + |t| <= n ensures OccursAt(s[..n], t, j) <==> OccursAt(s, t, j) {
      assert s[..n][j..j + |t|] == s[j..j + |t|];
    }
  }
  /** No occurrence of `t` in `s` when some character of `t` never appears in `s`. */
  lemma {:induction false} AbsentByMissingChar(s: string, t: string, c: char)
    requires c in t && c !in s
    ensures IndexOf(s, t) == -1
  {
    var k :| 0 <= k < |t| && t[k] == c;
    forall i | 0 <= i && i + |t| <= |s| ensures !OccursAt(s, t, i) {
      assert s[i..i + |t|][k] == s[i + k];
    }
  }

  /** Two pieces free of `t` stay free of `t` when joined, provided the join
      point cannot lie inside an occurrence (the character on one side of it is
      not a character of `t`). */
  lemma {:induction false} AbsentConcat(a: string, b: string, t: string)
    requires IndexOf(a, t) == -1 && IndexOf(b, t) == -1
    requires a == [] || b == [] || a[|a| - 1] !in t || b[0] !in t
    ensures IndexOf(a + b, t) == -1
  {
    var s := a + b;
    forall i | 0 <= i && i + |t| <= |s| ensures !OccursAt(s, t, i) {
      WindowOfConcat(a, b, t, i);
    }
  }

  /** One window of `a + b`, given what is known of the matching windows of `a` and `b`. */
  lemma WindowOfConcat(a: string, b: string, t: string, i: int)
    requires !OccursAt(a, t, i) && !OccursAt(b, t, i - |a|)
    requires a == [] || b == [] || a[|a| - 1] !in t || b[0] !in t
    requires 0 <= i && i + |t| <= |a| + |b|
    ensures !OccursAt(a + b, t, i)
  {
    if i + |t| <= |a| {
      assert (a + b)[i..i + |t|] == a[i..i + |t|];
    } else if i >= |a| {
      assert (a + b)[i..i + |t|] == b[i - |a|..i - |a| + |t|];
    } else if a[|a| - 1] !in t {
      WindowOverMissing(a + b, t, i, |a| - 1);
    } else {
      WindowOverMissing(a + b, t, i, |a|);
    }
  }

  /** A window that covers a character foreign to `t` is not an occurrence of `t`. */
  lemma WindowOverMissing(s: string, t: string, i: int, p: int)
    requires 0 <= i <= p < i + |t| <= |s|
    requires s[p] !in t
    ensures !OccursAt(s, t, i)
  {
    assert s[i..i + |t|][p - i] == s[p];
  }

  /** The first occurrence of `t` in `a + t + rest` is the one right after `a`
      when `a` holds none and its last character cannot start one that runs on. */
  lemma {:induction false} IndexOfAfter(a: string, t: string, rest: string)
    requires |t| > 0
    requires IndexOf(a, t) == -1
    requires a == [] || a[|a| - 1] !in t
    ensures IndexOf(a + t + rest, t) == |a|
  {
    var s := a + t + rest;
    assert OccursAt(s, t, |a|) by { assert s[|a|..|a| + |t|] == t; }
    forall i | 0 <= i < |a| && i + |t| <= |s| ensures !OccursAt(s, t, i) {
      var w := s[i..i + |t|];
      if i + |t| <= |a| {
        assert a[i..i + |t|] == w;
        assert !OccursAt(a, t, i);
      } else {
        WindowOverMissing(s, t, i, |a| - 1);
      }
    }
  }

  /** Splitting `a + sep + rest` yields `a` and then the pieces of `rest`. */
  lemma {:induction false} SplitAfter(a: string, sep: string, rest: string)
    requires |sep| > 0
    requires IndexOf(a, sep) == -1
    requires a == [] || a[|a| - 1] !in sep
    ensures Split(a + sep + rest, sep) == [a] + Split(rest, sep)
  {
    var s := a + sep + rest;
    IndexOfAfter(a, sep, rest);
    assert s[..|a|] == a;
    assert s[|a| + |sep|..] == rest;
  }

  /** An occurrence in one piece is an occurrence in any text containing it. */
  lemma {:induction false} IncludesInContext(a: string, b: string, c: string, t: string)
    requires Includes(b, t)
    ensures Includes(a + b + c, t)
  {
    var i := IndexOf(b, t);
    assert (a + b + c)[|a| + i..|a| + i + |t|] == b[i..i + |t|];
    assert OccursAt(a + b + c, t, |a| + i);
  }

  /** JavaScript's white space and line terminators (the characters `trim` removes). */
  predicate IsJsSpace(c: char)
  {
    var n := c as int;
    (9 <= n <= 13) || n == 0x20 || n == 0xA0 || n == 0x1680
    || (0x2000 <= n <= 0x200A) || n == 0x2028 || n == 0x2029
    || n == 0x202F || n == 0x205F || n == 0x3000 || n == 0xFEFF
  }

  predicate AllSpace(s: string)
  {
    forall k :: 0 <= k < |s| ==> IsJsSpace(s[k])
  }

  /** `s.trimStart()`: drops the white space in front. */
  function TrimStart(s: string): (r: string)
    ensures |r| <= |s| && r == s[|s| - |r|..]
    ensures forall k :: 0 <= k < |s| - |r| ==> IsJsSpace(s[k])
    ensures r == [] || !IsJsSpace(r[0])
    decreases |s|
  {
    if |s| > 0 && IsJsSpace(s[0]) then
      TrimStart(s[1..])
    else s
  }

  /** `s.trimEnd()`: drops the white space at the end. */
  function TrimEnd(s: string): (r: string)
    ensures |r| <= |s| && r == s[..|r|]
    ensures forall k :: |r| <= k < |s| ==> IsJsSpace(s[k])
    ensures r == [] || !IsJsSpace(r[|r| - 1])
    decreases |s|
  {
    if |s| > 0 && IsJsSpace(s[|s| - 1]) then
      TrimEnd(s[..|s| - 1])
    else s
  }

  /** `s.trim()`: no white space is left at either end. */
  function Trim(s: string): (r: string)
    ensures r == [] || (!IsJsSpace(r[0]) && !IsJsSpace(r[|r| - 1]))
  {
    var e := TrimEnd(s);
    var t := TrimStart(e);
    assert t != [] ==> t[|t| - 1] == e[|e| - 1];
    t
  }

  /** Trimming leaves nothing exactly when the text is all white space. */
  lemma TrimEmpty(s: string)
    ensures Trim(s) == [] <==> AllSpace(s)
  {
    var e := TrimEnd(s);
    if Trim(s) == [] {
      assert forall k :: 0 <= k < |e| ==> IsJsSpace(e[k]);
      assert e == [];
    }
  }

  /** White space added at the end does not change what `trimEnd` keeps. */
  lemma {:induction false} TrimEndAppendSpace(s: string, w: string)
    requires AllSpace(w)
    ensures TrimEnd(s + w) == TrimEnd(s)
    decreases |w|
  {
    if |w| > 0 {
      var u := s + w;
      assert u[..|u| - 1] == s + w[..|w| - 1];
      TrimEndAppendSpace(s, w[..|w| - 1]);
    } else {
      assert s + w == s;
    }
  }

  /** So `(s + w).trim() == s.trim()` for white space `w`. */
  lemma TrimAppendSpace(s: string, w: string)
    requires AllSpace(w)
    ensures Trim(s + w) == Trim(s)
  {
    TrimEndAppendSpace(s, w);
  }

  /** A text whose first and last characters are not white space is its own trim. */
  lemma TrimUnchanged(s: string)
    requires s == [] || (!IsJsSpace(s[0]) && !IsJsSpace(s[|s| - 1]))
    ensures Trim(s) == s
  {
  }

  /** ASCII case folding of `toLowerCase`. */
  function LowerChar(c: char): char
  {
    if 'A' <= c <= 'Z' then (c as int + 32) as char else c
  }

  function ToLower(s: string): (r: string)
    ensures |r| == |s|
    ensures forall k :: 0 <= k < |s| ==> r[k] == LowerChar(s[k])
  {
    seq(|s|, k requires 0 <= k < |s| => LowerChar(s[k]))
  }

  /** Decimal digits of a natural number, as `String(n)` and Python's `str(n)` write them. */
  function NatToString(n: nat): (r: string)
    ensures |r| >= 1
    ensures forall k :: 0 <= k < |r| ==> '0' <= r[k] <= '9'
    decreases n
  {
    if n < 10 then [DigitChar(n)] else NatToString(n / 10) + [DigitChar(n % 10)]
  }

  function DigitChar(d: nat): char
    requires d < 10
  {
    (48 + d) as char
  }

  function IntToString(n: int): string
  {
    if n < 0 then "-" + NatToString(-n) else NatToString(n)
  }
}

/** Bytes and JavaScript "binary" (latin-1) strings: `Buffer.toString("binary")`
    turns each byte into the character with that code, `Buffer.from(s, "binary")`
    keeps the low eight bits of each character, and Python's `str.encode()` of
    an ASCII text is the text's character codes. */
module Latin1 {

  type byte = x: int | 0 <= x < 256

  predicate IsLatin1(s: string)
  {
    forall k :: 0 <= k < |s| ==> s[k] as int < 256
  }

  predicate IsAscii(s: string)
  {
    forall k :: 0 <= k < |s| ==> s[k] as int < 128
  }

  lemma AsciiConcat(a: string, b: string)
    requires IsAscii(a) && IsAscii(b)
    ensures IsAscii(a + b)
  {
  }

  /** `Buffer.toString("binary")`. */
  function BinaryString(b: seq<byte>): (s: string)
    ensures |s| == |b|
    ensures forall k :: 0 <= k < |b| ==> s[k] as int == b[k]
    ensures IsLatin1(s)
  {
    seq(|b|, k requires 0 <= k < |b| => b[k] as char)
  }

  /** `Buffer.from(s, "binary")`, and the byte stored by `Uint8Array` element assignment. */
  function FromBinary(s: string): (b: seq<byte>)
    ensures |b| == |s|
    ensures forall k :: 0 <= k < |s| ==> b[k] == (s[k] as int) % 256
  {
    seq(|s|, k requires 0 <= k < |s| => (s[k] as int) % 256)
  }

  /** Python `s.encode()` on an ASCII text. */
  function EncodeAscii(s: string): (b: seq<byte>)
    requires IsAscii(s)
    ensures |b| == |s|
    ensures forall k :: 0 <= k < |s| ==> b[k] == s[k] as int
  {
    seq(|s|, k requires 0 <= k < |s| => s[k] as int)
  }

  /** Bytes survive the trip through a binary string. */
  lemma BytesRoundTrip(b: seq<byte>)
    ensures FromBinary(BinaryString(b)) == b
  {
  }

  /** A latin-1 string survives the trip through bytes. */
  lemma StringRoundTrip(s: string)
    requires IsLatin1(s)
    ensures BinaryString(FromBinary(s)) == s
  {
    var t := BinaryString(FromBinary(s));
    forall k | 0 <= k < |s| ensures t[k] == s[k] {
      assert t[k] as int == s[k] as int;
    }
  }

  lemma BinaryOfAscii(s: string)
    requires IsAscii(s)
    ensures BinaryString(EncodeAscii(s)) == s
  {
    var t := BinaryString(EncodeAscii(s));
    forall k | 0 <= k < |s| ensures t[k] == s[k] {
      assert t[k] as int == s[k] as int;
    }
  }

  lemma BinaryConcat(a: seq<byte>, b: seq<byte>)
    ensures BinaryString(a + b) == BinaryString(a) + BinaryString(b)
  {
  }

  lemma EncodeAsciiConcat(a: string, b: string)
    requires IsAscii(a) && IsAscii(b)
    ensures IsAscii(a + b) && EncodeAscii(a + b) == EncodeAscii(a) + EncodeAscii(b)
  {
  }
}
