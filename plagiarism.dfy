/** The resume screening of the Flask service: the text cleaning used before
    the similarity search, the extraction of certificate links restricted to
    an allow-list of learning sites, the per-certificate results, the final
    decision of `plagiarism_checker`, and the verdict `/resume-review`
    combines from it. The similarity search, the text extraction, the web
    fetches and the language-model review are parameters. */
module Plagiarism {
  import opened Wrappers
  import opened JsText
  import opened Sequences

  /** Python's `str.isspace`, which is what `\s` matches in a text pattern. */
  predicate PyIsSpace(c: char)
  {
    var n := c as int;
    (9 <= n <= 13) || (28 <= n <= 32) || n == 0x85 || n == 0xA0 || n == 0x1680
    || (0x2000 <= n <= 0x200A) || n == 0x2028 || n == 0x2029
    || n == 0x202F || n == 0x205F || n == 0x3000
  }

  /** The length of the run of non-white-space characters at the front. */
  function NonSpaceRun(s: string): (n: nat)
    ensures n <= |s|
    ensures forall k :: 0 <= k < n ==> !PyIsSpace(s[k])
    ensures n == |s| || PyIsSpace(s[n])
  {
    if s == [] || PyIsSpace(s[0]) then 0 else 1 + NonSpaceRun(s[1..])
  }

  /** `re.sub(r"http\S+", "", s)`: scanning from the left, every "http"
      followed by at least one non-white-space character is removed together
      with the whole run of such characters. */
  function RemoveLinks(s: string): (r: string)
    ensures |r| <= |s|
    decreases |s|
  {
    if HttpAt(s, 0) && |s| >= 5 && !PyIsSpace(s[4]) then
      RemoveLinks(s[4 + NonSpaceRun(s[4..])..])
    else if s == [] then []
    else [s[0]] + RemoveLinks(s[1..])
  }

  /** "http" starts at index `i`. */
  predicate HttpAt(s: string, i: nat)
  {
    i + 4 <= |s| && s[i] == 'h' && s[i + 1] == 't' && s[i + 2] == 't' && s[i + 3] == 'p'
  }

  /** No link is left: every "http" in the text is followed by white space
      or ends it. */
  predicate LinkFree(s: string)
  {
    forall i: nat :: i < |s| && HttpAt(s, i) ==> i + 4 == |s| || PyIsSpace(s[i + 4])
  }

  /** A text starting with white space keeps it. */
  lemma KeepsSpace(s: string)
    requires s != [] && PyIsSpace(s[0])
    ensures RemoveLinks(s) == [s[0]] + RemoveLinks(s[1..])
  {
  }

  /** A link starts at `i`: "http" followed by a character that is not
      white space. */
  predicate LinkAt(s: string, i: nat)
  {
    HttpAt(s, i) && i + 4 < |s| && !PyIsSpace(s[i + 4])
  }

  predicate NoSpace(w: string)
  {
    forall k :: 0 <= k < |w| ==> !PyIsSpace(w[k])
  }

  /** No link reaches across white space: the text on either side of a
      white-space character is cleaned on its own and the character is
      kept. */
  lemma {:induction false} SpaceSplits(a: string, c: char, b: string)
    requires PyIsSpace(c)
    ensures RemoveLinks(a + [c] + b) == RemoveLinks(a) + [c] + RemoveLinks(b)
    decreases |a|
  {
    var s := a + [c] + b;
    if a == [] {
      assert s == [c] + b;
      KeepsSpace(s);
      assert s[1..] == b;
    } else if LinkAt(s, 0) {
      var n := LinkInFront(a, c, b);
      RemoveStep(s);
      RemoveStep(a);
      SpaceSplits(a[n..], c, b);
    } else {
      CharInFront(a, c, b);
      RemoveStep(s);
      RemoveStep(a);
      SpaceSplits(a[1..], c, b);
    }
  }

  /** One step of the removal: a link at the front goes with its run, any
      other first character stays. */
  lemma RemoveStep(s: string)
    ensures LinkAt(s, 0) ==> RemoveLinks(s) == RemoveLinks(s[4 + NonSpaceRun(s[4..])..])
    ensures s != [] && !LinkAt(s, 0) ==> RemoveLinks(s) == [s[0]] + RemoveLinks(s[1..])
  {
  }

  /** A link at the front of `a + [c] + b`, with `c` white space, lies in `a`. */
  lemma LinkInFront(a: string, c: char, b: string) returns (n: nat)
    requires PyIsSpace(c) && LinkAt(a + [c] + b, 0)
    ensures LinkAt(a, 0) && n == 4 + NonSpaceRun(a[4..]) <= |a|
    ensures n == 4 + NonSpaceRun((a + [c] + b)[4..])
    ensures (a + [c] + b)[n..] == a[n..] + [c] + b
  {
    var s := a + [c] + b;
    assert |a| >= 5 && a[..5] == s[..5];
    n := 4 + NonSpaceRun(a[4..]);
    RunStopsAtSpace(a[4..], [c] + b);
    assert s[4..] == a[4..] + ([c] + b);
  }

  /** No link at the front of `a + [c] + b` means none at the front of `a`. */
  lemma CharInFront(a: string, c: char, b: string)
    requires a != [] && !LinkAt(a + [c] + b, 0)
    ensures !LinkAt(a, 0) && (a + [c] + b)[0] == a[0] && (a + [c] + b)[1..] == a[1..] + [c] + b
  {
    var s := a + [c] + b;
    assert |a| >= 5 ==> a[..5] == s[..5];
  }

  /** The run of non-white-space characters stops at the first white space. */
  lemma {:induction false} RunStopsAtSpace(x: string, y: string)
    requires y != [] && PyIsSpace(y[0])
    ensures NonSpaceRun(x + y) == NonSpaceRun(x)
    decreases |x|
  {
    if x == [] {
      assert x + y == y;
    } else {
      assert (x + y)[1..] == x[1..] + y;
      RunStopsAtSpace(x[1..], y);
    }
  }

  /** A word without a link is kept whole. */
  lemma {:induction false} WordKept(w: string)
    requires NoSpace(w)
    requires forall i: nat :: !LinkAt(w, i)
    ensures RemoveLinks(w) == w
    decreases |w|
  {
    if w != [] {
      assert !LinkAt(w, 0);
      assert forall i: nat :: LinkAt(w[1..], i) ==> LinkAt(w, i + 1);
      WordKept(w[1..]);
    }
  }

  /** A word is cut where its first link starts: the link takes the rest of
      the word with it. */
  lemma {:induction false} WordCut(w: string, i: nat)
    requires NoSpace(w) && LinkAt(w, i)
    requires forall j: nat :: j < i ==> !LinkAt(w, j)
    ensures RemoveLinks(w) == w[..i]
    decreases i
  {
    if i == 0 {
      assert NonSpaceRun(w[4..]) == |w| - 4;
      assert w[|w|..] == [];
    } else {
      assert !LinkAt(w, 0);
      assert LinkAt(w[1..], i - 1);
      assert forall j: nat :: j < i - 1 && LinkAt(w[1..], j) ==> LinkAt(w, j + 1);
      WordCut(w[1..], i - 1);
      assert w[..i] == [w[0]] + w[1..][..i - 1];
    }
  }

  /** A removal leaves white space or nothing at the front, so a result
      starting with anything else kept the text's first character. */
  lemma FrontKept(s: string)
    requires RemoveLinks(s) != [] && !PyIsSpace(RemoveLinks(s)[0])
    ensures s != [] && !(HttpAt(s, 0) && |s| >= 5 && !PyIsSpace(s[4]))
    ensures RemoveLinks(s) == [s[0]] + RemoveLinks(s[1..])
  {
    if HttpAt(s, 0) && |s| >= 5 && !PyIsSpace(s[4]) {
      var t := s[4 + NonSpaceRun(s[4..])..];
      assert RemoveLinks(s) == RemoveLinks(t);
      if t != [] {
        assert t[0] == s[4..][NonSpaceRun(s[4..])];
        KeepsSpace(t);
      }
      assert false;
    }
  }

  /** After the removal no link is left. */
  lemma {:induction false} LinksGone(s: string)
    ensures LinkFree(RemoveLinks(s))
    decreases |s|
  {
    if HttpAt(s, 0) && |s| >= 5 && !PyIsSpace(s[4]) {
      LinksGone(s[4 + NonSpaceRun(s[4..])..]);
    } else if s != [] {
      var rest := RemoveLinks(s[1..]);
      var r := [s[0]] + rest;
      LinksGone(s[1..]);
      forall i: nat | i < |r| && HttpAt(r, i)
        ensures i + 4 == |r| || PyIsSpace(r[i + 4])
      {
        if i > 0 {
          assert HttpAt(rest, i - 1);
        } else {
          HttpAtFront(s, rest);
        }
      }
    }
  }

  /** When the kept first character starts an "http", the next three are
      the text's own, and what follows them is white space or nothing. */
  lemma HttpAtFront(s: string, rest: string)
    requires s != [] && !(HttpAt(s, 0) && |s| >= 5 && !PyIsSpace(s[4]))
    requires rest == RemoveLinks(s[1..]) && |rest| >= 3 && s[0] == 'h'
    requires rest[0] == 't' && rest[1] == 't' && rest[2] == 'p'
    ensures |rest| == 3 || PyIsSpace(rest[3])
  {
    var s1 := s[1..];
    FrontKept(s1);
    var s2 := s1[1..];
    FrontKept(s2);
    var s3 := s2[1..];
    FrontKept(s3);
    var s4 := s3[1..];
    assert HttpAt(s, 0);
    assert rest == [s1[0], s2[0], s3[0]] + RemoveLinks(s4);
    if s4 != [] {
      assert s4[0] == s[4];
      KeepsSpace(s4);
    }
  }

  /** `[^a-zA-Z]` replaced by a space, then `lower()`. */
  function CleanChar(c: char): (r: char)
    ensures ('a' <= r <= 'z') || r == ' '
  {
    if 'a' <= c <= 'z' then c
    else if 'A' <= c <= 'Z' then (c as int + 32) as char
    else ' '
  }

  /** `clean_text`. */
  function CleanText(s: string): (r: string)
    ensures |r| == |RemoveLinks(s)| <= |s|
    ensures forall k :: 0 <= k < |r| ==> ('a' <= r[k] <= 'z') || r[k] == ' '
    ensures forall k :: 0 <= k < |r| ==> r[k] == CleanChar(RemoveLinks(s)[k])
  {
    var t := RemoveLinks(s);
    seq(|t|, k requires 0 <= k < |t| => CleanChar(t[k]))
  }

  /** `clean_text` is not idempotent: an upper-case `HTTP` followed by a
      letter survives the link removal and is then lower-cased into a link
      that a second pass removes (`HTTPS://x` cleans to `https   x`, which
      cleans to `   x`). */
  lemma CleanTextNotIdempotent(s: string)
    requires |s| >= 5 && s[0] == 'H' && s[1] == 'T' && s[2] == 'T' && s[3] == 'P' && 'A' <= s[4] <= 'Z'
    ensures |CleanText(CleanText(s))| < |CleanText(s)|
  {
    UpperKept(s);
    UpperKept(s[1..]);
    UpperKept(s[2..]);
    UpperKept(s[3..]);
    UpperKept(s[4..]);
    var t := RemoveLinks(s);
    assert t[..5] == s[..5];
    var c := CleanText(s);
    assert c[0] == 'h' && c[1] == 't' && c[2] == 't' && c[3] == 'p' && 'a' <= c[4] <= 'z';
    assert LinkAt(c, 0);
    RemoveStep(c);
  }

  /** An upper-case letter in front is kept as it is. */
  lemma UpperKept(s: string)
    requires |s| > 0 && 'A' <= s[0] <= 'Z'
    ensures RemoveLinks(s) == [s[0]] + RemoveLinks(s[1..])
  {
    RemoveStep(s);
  }

  /** A text without "http" is cleaned character by character: its letters
      lower-cased, everything else a space. */
  lemma {:induction false} NoLinkNoRemoval(s: string)
    requires !Includes(s, "http")
    ensures RemoveLinks(s) == s
    decreases |s|
  {
    if s != [] {
      assert !OccursAt(s, "http", 0);
      assert !Includes(s[1..], "http") by {
        ShiftOccurrence(s, "http");
      }
      NoLinkNoRemoval(s[1..]);
    }
  }

  /** A character that may follow the scheme in a link. */
  predicate UrlChar(c: char)
  {
    !PyIsSpace(c) && c != ','
  }

  function UrlRun(s: string): (n: nat)
    ensures n <= |s|
    ensures forall k :: 0 <= k < n ==> UrlChar(s[k])
    ensures n == |s| || !UrlChar(s[n])
  {
    if s == [] || !UrlChar(s[0]) then 0 else 1 + UrlRun(s[1..])
  }

  /** The length of the scheme at the front: "https://", "http://", or none. */
  function SchemeLength(s: string): (n: nat)
    ensures n == 0 || n == 7 || n == 8
    ensures n > 0 ==> n <= |s|
  {
    if |s| >= 8 && s[..8] == "https://" then 8
    else if |s| >= 7 && s[..7] == "http://" then 7
    else 0
  }

  /** A link as the pattern finds it: a scheme and a non-empty run of
      characters that are neither white space nor commas. */
  predicate IsLink(u: string)
  {
    var p := SchemeLength(u);
    p > 0 && |u| > p && forall k :: p <= k < |u| ==> UrlChar(u[k])
  }

  /** `re.findall(r'https?://[^\s,]+', text)`: the links, left to right,
      none overlapping. */
  function FindLinks(s: string): (r: seq<string>)
    ensures forall k :: 0 <= k < |r| ==> IsLink(r[k])
    decreases |s|
  {
    if s == [] then []
    else
      var p := SchemeLength(s);
      if p > 0 && UrlRun(s[p..]) > 0 then
        var n := p + UrlRun(s[p..]);
        var u := s[..n];
        assert SchemeLength(u) == p by {
          assert u[..p] == s[..p];
          if p == 7 { assert !(|s| >= 8 && s[..8] == "https://"); assert |u| < 8 || u[..8] == s[..8]; }
        }
        [u] + FindLinks(s[n..])
      else FindLinks(s[1..])
  }

  /** The pattern matches at `i`: a scheme and at least one URL character. */
  predicate MatchAt(s: string, i: nat)
  {
    i <= |s| && SchemeLength(s[i..]) > 0 && i + SchemeLength(s[i..]) < |s| && UrlChar(s[i + SchemeLength(s[i..])])
  }

  predicate AllUrlChars(w: string)
  {
    forall k :: 0 <= k < |w| ==> UrlChar(w[k])
  }

  /** No match reaches across white space or a comma: the text on either
      side is searched on its own. */
  lemma {:induction false} SeparatorSplits(a: string, c: char, b: string)
    requires !UrlChar(c)
    ensures FindLinks(a + [c] + b) == FindLinks(a) + FindLinks(b)
    decreases |a|
  {
    var s := a + [c] + b;
    if a == [] {
      assert s == [c] + b;
      SkipSeparator(c, b);
    } else if MatchAt(s, 0) {
      var n := MatchInFront(a, c, b);
      SeparatorSplits(a[n..], c, b);
      MatchTaken(a, c, b, n);
    } else {
      NoMatchInFront(a, c, b);
      SeparatorSplits(a[1..], c, b);
      MatchSkipped(a, c, b);
    }
  }

  /** The step of `SeparatorSplits` for a match at the front. */
  lemma MatchTaken(a: string, c: char, b: string, n: nat)
    requires MatchAt(a + [c] + b, 0) && MatchAt(a, 0) && SchemeLength(a) == SchemeLength(a + [c] + b)
    requires n == SchemeLength(a) + UrlRun(a[SchemeLength(a)..]) <= |a|
    requires n == SchemeLength(a + [c] + b) + UrlRun((a + [c] + b)[SchemeLength(a + [c] + b)..])
    requires (a + [c] + b)[..n] == a[..n] && (a + [c] + b)[n..] == a[n..] + [c] + b
    requires FindLinks(a[n..] + [c] + b) == FindLinks(a[n..]) + FindLinks(b)
    ensures FindLinks(a + [c] + b) == FindLinks(a) + FindLinks(b)
  {
    var s := a + [c] + b;
    FindTaken(s, n);
    FindTaken(a, n);
    var x, t := a[..n], a[n..];
    var ft, fb := FindLinks(t), FindLinks(b);
    assert FindLinks(s) == [x] + (ft + fb);
    assert FindLinks(a) == [x] + ft;
    Regroup([x], ft, fb);
  }

  lemma Regroup(x: seq<string>, y: seq<string>, z: seq<string>)
    ensures x + (y + z) == (x + y) + z
  {
  }

  /** A match at the front is taken whole. */
  lemma FindTaken(s: string, n: nat)
    requires MatchAt(s, 0) && n == SchemeLength(s) + UrlRun(s[SchemeLength(s)..])
    ensures n <= |s| && FindLinks(s) == [s[..n]] + FindLinks(s[n..])
  {
    FindStep(s);
  }

  /** The step of `SeparatorSplits` without a match at the front. */
  lemma MatchSkipped(a: string, c: char, b: string)
    requires a != [] && !MatchAt(a + [c] + b, 0) && !MatchAt(a, 0)
    requires (a + [c] + b)[1..] == a[1..] + [c] + b
    requires FindLinks(a[1..] + [c] + b) == FindLinks(a[1..]) + FindLinks(b)
    ensures FindLinks(a + [c] + b) == FindLinks(a) + FindLinks(b)
  {
    FindStep(a + [c] + b);
    FindStep(a);
  }

  /** A text starting with a character that is not a URL character is
      searched from the next one. */
  lemma SkipSeparator(c: char, b: string)
    requires !UrlChar(c)
    ensures FindLinks([c] + b) == FindLinks(b)
  {
    var s := [c] + b;
    assert s[0] == c && s[0..] == s;
    SchemeChars(s);
    assert !MatchAt(s, 0);
    FindStep(s);
    assert s[1..] == b;
  }

  /** One step of the search: a match at the front is taken whole, otherwise
      the search moves on by one character. */
  lemma FindStep(s: string)
    ensures MatchAt(s, 0) ==>
      var n := SchemeLength(s) + UrlRun(s[SchemeLength(s)..]);
      FindLinks(s) == [s[..n]] + FindLinks(s[n..])
    ensures s != [] && !MatchAt(s, 0) ==> FindLinks(s) == FindLinks(s[1..])
  {
    assert s[0..] == s;
  }

  /** The characters of a scheme are URL characters. */
  lemma SchemeChars(s: string)
    ensures forall k :: 0 <= k < SchemeLength(s) ==> UrlChar(s[k])
  {
    var p := SchemeLength(s);
    if p == 8 {
      assert s[..8] == ['h', 't', 't', 'p', 's', ':', '/', '/'];
      assert forall k :: 0 <= k < 8 ==> s[k] == s[..8][k];
    } else if p == 7 {
      assert s[..7] == ['h', 't', 't', 'p', ':', '/', '/'];
      assert forall k :: 0 <= k < 7 ==> s[k] == s[..7][k];
    }
  }

  /** A text and its extension `s` agree on the scheme when the text holds
      the scheme of either. */
  lemma SchemeShared(a: string, s: string)
    requires |a| <= |s| && s[..|a|] == a
    ensures SchemeLength(a) > 0 ==> SchemeLength(s) == SchemeLength(a)
    ensures SchemeLength(s) <= |a| ==> SchemeLength(a) == SchemeLength(s)
  {
    if |a| >= 8 {
      assert a[..8] == s[..8];
    }
    if |a| >= 7 {
      assert a[..7] == s[..7];
    }
    if |a| == 7 && |s| >= 8 && s[..8] == "https://" {
      assert s[..8] == ['h', 't', 't', 'p', 's', ':', '/', '/'];
      assert s[..7] == ['h', 't', 't', 'p', 's', ':', '/'];
      assert "http://" == ['h', 't', 't', 'p', ':', '/', '/'];
    }
  }

  /** The run of URL characters stops at the first character that is not one. */
  lemma {:induction false} UrlRunStops(x: string, y: string)
    requires y != [] && !UrlChar(y[0])
    ensures UrlRun(x + y) == UrlRun(x)
    decreases |x|
  {
    if x == [] {
      assert x + y == y;
    } else {
      assert (x + y)[1..] == x[1..] + y;
      UrlRunStops(x[1..], y);
    }
  }

  /** A match at the front of `a + [c] + b`, with `c` not a URL character,
      lies in `a`. */
  lemma MatchInFront(a: string, c: char, b: string) returns (n: nat)
    requires !UrlChar(c) && MatchAt(a + [c] + b, 0)
    ensures MatchAt(a, 0) && SchemeLength(a) == SchemeLength(a + [c] + b)
    ensures n == SchemeLength(a) + UrlRun(a[SchemeLength(a)..]) <= |a|
    ensures n == SchemeLength(a + [c] + b) + UrlRun((a + [c] + b)[SchemeLength(a + [c] + b)..])
    ensures (a + [c] + b)[..n] == a[..n] && (a + [c] + b)[n..] == a[n..] + [c] + b
  {
    var s := a + [c] + b;
    FrontScheme(a, c, b);
    var p := SchemeLength(a);
    assert s[p..] == a[p..] + ([c] + b);
    UrlRunStops(a[p..], [c] + b);
    n := p + UrlRun(a[p..]);
    assert s[..n] == a[..n];
    assert s[n..] == a[n..] + [c] + b;
  }

  /** The scheme of such a match lies in `a`, followed there by a URL
      character. */
  lemma FrontScheme(a: string, c: char, b: string)
    requires !UrlChar(c) && MatchAt(a + [c] + b, 0)
    ensures SchemeLength(a) == SchemeLength(a + [c] + b) < |a| && MatchAt(a, 0)
  {
    var s := a + [c] + b;
    assert s[0..] == s;
    var p := SchemeLength(s);
    SchemeChars(s);
    assert s[|a|] == c;
    assert s[..|a|] == a;
    SchemeShared(a, s);
    assert a[0..] == a && a[p] == s[p];
  }

  /** No match at the front of `a + [c] + b` means none at the front of `a`. */
  lemma NoMatchInFront(a: string, c: char, b: string)
    requires a != [] && !MatchAt(a + [c] + b, 0)
    ensures !MatchAt(a, 0) && (a + [c] + b)[1..] == a[1..] + [c] + b
  {
    var s := a + [c] + b;
    assert s[0..] == s && a[0..] == a;
    assert s[..|a|] == a;
    SchemeShared(a, s);
  }

  /** A match in `w[1..]` is a match in `w` one place later. */
  lemma ShiftMatches(w: string)
    requires w != []
    ensures forall j: nat :: MatchAt(w[1..], j) <==> MatchAt(w, j + 1)
  {
    forall j: nat ensures MatchAt(w[1..], j) <==> MatchAt(w, j + 1) {
      if j <= |w| - 1 {
        assert w[1..][j..] == w[j + 1..];
      }
    }
  }

  /** A word of URL characters without a match yields no link. */
  lemma {:induction false} WordWithoutLink(w: string)
    requires AllUrlChars(w)
    requires forall i: nat :: !MatchAt(w, i)
    ensures FindLinks(w) == []
    decreases |w|
  {
    if w != [] {
      assert !MatchAt(w, 0);
      FindStep(w);
      ShiftMatches(w);
      WordWithoutLink(w[1..]);
    }
  }

  /** A word of URL characters yields one link: from its first match to
      the end of the word. */
  lemma {:induction false} WordLink(w: string, i: nat)
    requires AllUrlChars(w) && MatchAt(w, i)
    requires forall j: nat :: j < i ==> !MatchAt(w, j)
    ensures FindLinks(w) == [w[i..]]
    decreases i
  {
    FindStep(w);
    if i == 0 {
      var p := SchemeLength(w);
      assert w[0..] == w;
      assert UrlRun(w[p..]) == |w| - p;
      assert w[..|w|] == w && w[|w|..] == [];
    } else {
      assert !MatchAt(w, 0);
      ShiftMatches(w);
      assert w[1..][i - 1..] == w[i..];
      WordLink(w[1..], i - 1);
    }
  }

  /** `urlparse(u)`: the network location, between the scheme and the first
      '/', '?' or '#', and the path, from there up to '?' or '#'. */
  function NetlocEnd(s: string): (n: nat)
    ensures n <= |s|
    ensures forall k :: 0 <= k < n ==> s[k] != '/' && s[k] != '?' && s[k] != '#'
    ensures n == |s| || s[n] == '/' || s[n] == '?' || s[n] == '#'
  {
    if s == [] || s[0] == '/' || s[0] == '?' || s[0] == '#' then 0 else 1 + NetlocEnd(s[1..])
  }

  function PathEnd(s: string): (n: nat)
    ensures n <= |s|
    ensures forall k :: 0 <= k < n ==> s[k] != '?' && s[k] != '#'
    ensures n == |s| || s[n] == '?' || s[n] == '#'
  {
    if s == [] || s[0] == '?' || s[0] == '#' then 0 else 1 + PathEnd(s[1..])
  }

  datatype Parsed = Parsed(netloc: string, path: string)

  /** `urlparse` raises ValueError when the location opens an IPv6 bracket
      without closing it, or closes one it did not open. */
  function ParseLink(u: string): (r: Option<Parsed>)
    ensures r.Some? ==> ('[' in r.value.netloc) == (']' in r.value.netloc)
    ensures r.Some? ==> '/' !in r.value.netloc && '?' !in r.value.netloc && '#' !in r.value.netloc
    ensures r.Some? ==> '?' !in r.value.path && '#' !in r.value.path
    ensures r.Some? ==> r.value.path == [] || r.value.path[0] == '/'
    ensures r.Some? ==> StartsWith(u[SchemeLength(u)..], r.value.netloc + r.value.path)
  {
    var rest := u[SchemeLength(u)..];
    var n := NetlocEnd(rest);
    var netloc := rest[..n];
    var after := rest[n..];
    if ('[' in netloc) != (']' in netloc) then None
    else
      var path := after[..PathEnd(after)];
      assert rest[..n + |path|] == netloc + path;
      Some(Parsed(netloc, path))
  }

  const AllowedDomains: set<string> := {
    "coursera.org", "udemy.com", "edx.org", "linkedin.com", "freecodecamp.org", "datacamp.com",
    "hackerrank.com", "leetcode.com", "aws.amazon.com", "microsoft.com", "cloud.google.com",
    "hubspot.com", "comptia.org", "isc2.org"}

  /** The host without its leading "www.", lower-cased. */
  function HostCore(netloc: string): string
  {
    var host := ToLower(netloc);
    if StartsWith(host, "www.") then host[4..] else host
  }

  /** The link rule: the host core is on the allow-list; a LinkedIn link
      must point into its learning section and a HubSpot link into its
      academy. */
  predicate AllowedParsed(p: Parsed): (b: bool)
    ensures b ==> HostCore(p.netloc) in AllowedDomains
    ensures HostCore(p.netloc) == "linkedin.com" && !Includes(p.path, "/learning") ==> !b
  {
    var core := HostCore(p.netloc);
    assert StartsWith(p.path, "/learning") ==> OccursAt(p.path, "/learning", 0) && Includes(p.path, "/learning");
    var i := IndexOf(p.path, "/learning/");
    assert i >= 0 ==> p.path[i..i + 9] == p.path[i..i + 10][..9] && OccursAt(p.path, "/learning", i);
    && core in AllowedDomains
    && (core == "linkedin.com" ==> StartsWith(p.path, "/learning") || Includes(p.path, "/learning/"))
    && (core == "hubspot.com" ==> Includes(ToLower(p.path), "academy"))
  }

  /** A leading `www.` (in any case) does not change the decision for a
      host that does not already start with it. */
  lemma WwwIgnored(p: Parsed)
    requires !StartsWith(ToLower(p.netloc), "www.")
    ensures AllowedParsed(p.(netloc := "WWW." + p.netloc)) <==> AllowedParsed(p)
  {
    var host := "WWW." + p.netloc;
    var lower := ToLower(host);
    assert lower[..4] == "www.";
    assert lower[4..] == ToLower(p.netloc);
    assert HostCore(host) == HostCore(p.netloc);
  }

  /** A link is kept when it parses and passes the rule. */
  predicate Kept(u: string)
  {
    ParseLink(u).Some? && AllowedParsed(ParseLink(u).value)
  }

  /** `extract_urls`: the links found in the text, those the rule allows
      kept in order; every one it keeps is a link. */
  method ExtractUrls(text: string) returns (filtered: seq<string>)
    ensures filtered == Filter(FindLinks(text), Kept)
    ensures forall k :: 0 <= k < |filtered| ==> IsLink(filtered[k]) && Kept(filtered[k])
  {
    filtered := FilterLinks(FindLinks(text), Kept);
  }

  /** The loop of `extract_urls`: each link in turn is appended when the
      rule keeps it. */
  method FilterLinks(all: seq<string>, keep: string -> bool) returns (filtered: seq<string>)
    ensures filtered == Filter(all, keep)
  {
    filtered := [];
    var i := 0;
    while i < |all|
      invariant 0 <= i <= |all|
      invariant filtered + Filter(all[i..], keep) == Filter(all, keep)
    {
      FilterStep(all[i..], keep);
      assert all[i..][1..] == all[i + 1..];
      if keep(all[i]) {
        filtered := filtered + [all[i]];
      }
      i := i + 1;
    }
    assert all[|all|..] == [];
  }

  /** What fetching a certificate page gives: `None` for a 404, otherwise
      the text with its tags removed, cut to 1000 characters (the empty text
      when the fetch fails). */
  datatype Fetched = NotFound | Page(text: string)

  /** A certificate result: Python's `True`, `False` or `None`. */
  datatype Tri = TTrue | TFalse | TNone

  predicate Blank(s: string)
  {
    forall k :: 0 <= k < |s| ==> PyIsSpace(s[k])
  }

  /** The result of one certificate: `False` for a 404, `None` for a blank
      page, and `True` otherwise, since the certificate branch of the
      similarity check always answers "Verified". */
  function CertResult(f: Fetched): (r: Tri)
    ensures r == TFalse <==> f.NotFound?
    ensures r == TNone <==> f.Page? && Blank(f.text)
  {
    if f.NotFound? then TFalse else if Blank(f.text) then TNone else TTrue
  }

  /** The results of the certificates, one per link, in order. */
  function CertResults(urls: seq<string>, fetch: string -> Fetched): (r: seq<Tri>)
    ensures |r| == |urls| && forall k :: 0 <= k < |urls| ==> r[k] == CertResult(fetch(urls[k]))
  {
    seq(|urls|, k requires 0 <= k < |urls| => CertResult(fetch(urls[k])))
  }

  /** The loop that fills `cert_results`. */
  method CheckCertificates(urls: seq<string>, fetch: string -> Fetched) returns (results: seq<Tri>)
    ensures results == CertResults(urls, fetch)
  {
    results := [];
    var i := 0;
    while i < |urls|
      invariant 0 <= i <= |urls|
      invariant results == CertResults(urls[..i], fetch)
    {
      results := results + [CertResult(fetch(urls[i]))];
      i := i + 1;
      assert urls[..i][..i - 1] == urls[..i - 1];
    }
    assert urls[..|urls|] == urls;
  }

  /** The resume check: plagiarism found, unique, or undetermined (the
      result text matched neither prefix or the check raised). */
  datatype ResumeCheck = Flagged | Unique | Undetermined

  /** The final decision: false when the resume is flagged or undetermined,
      false when any certificate is `False` or `None`, true otherwise. */
  function Decide(resume: ResumeCheck, certs: seq<Tri>): (pass: bool)
    ensures pass <==> resume == Unique && forall k :: 0 <= k < |certs| ==> certs[k] == TTrue
  {
    if resume != Unique then false
    else !(exists k :: 0 <= k < |certs| && certs[k] != TTrue)
  }

  /** With no certificate links, a unique resume passes. */
  lemma NoCertificatesPass(resume: ResumeCheck)
    ensures Decide(resume, []) <==> resume == Unique
  {
  }

  /** A resume passes exactly when it is unique and every certificate page
      was found and is not blank. */
  lemma PassMeansEveryPageRead(resume: ResumeCheck, urls: seq<string>, fetch: string -> Fetched)
    ensures Decide(resume, CertResults(urls, fetch))
        <==> resume == Unique && forall k :: 0 <= k < |urls| ==> fetch(urls[k]).Page? && !Blank(fetch(urls[k]).text)
  {
    var certs := CertResults(urls, fetch);
    if resume == Unique && forall k :: 0 <= k < |urls| ==> fetch(urls[k]).Page? && !Blank(fetch(urls[k]).text) {
      assert forall k :: 0 <= k < |certs| ==> certs[k] == TTrue;
    }
  }

  /** What `plagiarism_checker` returns: the tuple `(None, [])` for a
      missing file, or the decision. */
  datatype Checked = MissingFile | Decided(pass: bool)

  /** `extract_resume_text` picks the reader by the lower-cased extension
      and raises ValueError for anything but ".pdf" and ".docx". */
  function ResumeText(path: string, pdfText: string, docxText: string): (r: Result<string, string>)
    ensures r.Success? ==> r.value == pdfText || r.value == docxText
    ensures r.Failure? ==> r.error == "Unsupported file format. Only PDF and DOCX supported."
  {
    var lower := ToLower(path);
    if |lower| >= 4 && lower[|lower| - 4..] == ".pdf" then Success(pdfText)
    else if |lower| >= 5 && lower[|lower| - 5..] == ".docx" then Success(docxText)
    else Failure("Unsupported file format. Only PDF and DOCX supported.")
  }

  /** `plagiarism_checker`: the similarity verdict of the text and the
      fetcher are given; the certificate links are those of the text. */
  method PlagiarismChecker(exists_: bool, path: string, pdfText: string, docxText: string,
                           similarity: string -> ResumeCheck, fetch: string -> Fetched)
    returns (r: Result<Checked, string>)
    ensures !exists_ ==> r == Success(MissingFile)
    ensures exists_ && ResumeText(path, pdfText, docxText).Failure? ==> r == Failure(ResumeText(path, pdfText, docxText).error)
    ensures exists_ && ResumeText(path, pdfText, docxText).Success? ==>
      var text := ResumeText(path, pdfText, docxText).value;
      r == Success(Decided(Decide(similarity(text), CertResults(Filter(FindLinks(text), Kept), fetch))))
  {
    if !exists_ {
      return Success(MissingFile);
    }
    var text := ResumeText(path, pdfText, docxText);
    if text.Failure? {
      return Failure(text.error);
    }
    var urls := ExtractUrls(text.value);
    var resume := similarity(text.value);
    var certs := CheckCertificates(urls, fetch);
    return Success(Decided(Decide(resume, certs)));
  }

  /** Python truthiness of what `plagiarism_checker` returns: the tuple is
      a non-empty tuple, so it counts as true. */
  predicate CheckedTruthy(c: Checked)
  {
    c.MissingFile? || c.pass
  }

  /** The reply of `/resume-review`. */
  datatype Review = Review(status: int, message: Option<string>, value: Option<string>, error: Option<string>)

  /** The review's inputs: the request body (`None` for an empty one), the
      base64 decoder (`Failure` with the message it raises), the screening of
      the written file (`Failure` with the message it raises), and the
      truthiness of the job-description check. */
  function ResumeReview(data: Option<map<string, string>>, decode: string -> Result<seq<int>, string>,
                        screened: Result<Checked, string>, jdOk: bool): (r: Review)
    ensures data.None? || |data.value| == 0 || "filedata" !in data.value || "job_description" !in data.value
            <==> r == Review(400, None, None, Some("Invalid request, need filedata"))
    ensures r.status == 200 ==> r.value == Some("True") || r.value == Some("False")
    ensures r.status == 200 ==> (r.value == Some("True") <==> screened.Success? && CheckedTruthy(screened.value) && jdOk)
    ensures r.status == 200 ==> r.message == Some("Candidate Status") && r.error.None?
    ensures data.Some? && "filedata" in data.value && "job_description" in data.value ==>
              (r.status == 200 <==> decode(data.value["filedata"]).Success? && screened.Success?)
    ensures data.Some? && "filedata" in data.value && "job_description" in data.value
            && decode(data.value["filedata"]).Failure?
            ==> r == Review(500, None, None, Some(decode(data.value["filedata"]).error))
    ensures data.Some? && "filedata" in data.value && "job_description" in data.value
            && decode(data.value["filedata"]).Success? && screened.Failure?
            ==> r == Review(500, None, None, Some(screened.error))
  {
    if data.None? || |data.value| == 0 || "filedata" !in data.value || "job_description" !in data.value then
      Review(400, None, None, Some("Invalid request, need filedata"))
    else if decode(data.value["filedata"]).Failure? then Review(500, None, None, Some(decode(data.value["filedata"]).error))
    else match screened
      case Failure(e) => Review(500, None, None, Some(e))
      case Success(c) =>
        var ok := CheckedTruthy(c) && jdOk;
        Review(200, Some("Candidate Status"), None, None).(value := Some(if ok then "True" else "False"))
  }

  /** The resume just written is always there, so the tuple never reaches
      the verdict; if it did, it would count as a pass. */
  lemma MissingFileCountsAsPass(data: map<string, string>, decode: string -> Result<seq<int>, string>)
    requires "filedata" in data && "job_description" in data && decode(data["filedata"]).Success?
    ensures ResumeReview(Some(data), decode, Success(MissingFile), true).value == Some("True")
  {
  }
}
