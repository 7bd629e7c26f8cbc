/**
 * The slice of Go's `strings`, `unicode` and `regexp` packages the core relies on,
 * over Dafny strings (sequences of Unicode scalar values).
 *
 * Go strings are UTF-8 byte strings; wherever the Go code compares a byte length
 * (`len(s)`), the model uses `Utf8Len`, the length of the UTF-8 encoding.
 * Case mapping is ASCII-only (see README).
 */
module Strings {

  /** One byte of a Go `[]byte`, or of a string's UTF-8 encoding. */
  type byte = b: int | 0 <= b < 256

  // ---------------------------------------------------------------------------
  // Whitespace and trimming
  // ---------------------------------------------------------------------------

  /** unicode.IsSpace, the class strings.TrimSpace removes. */
  predicate IsSpace(c: char) {
    || c == ' ' || c == '\t' || c == '\n' || c == '\r' || c == '\U{000B}' || c == '\U{000C}'
    || c == '\U{0085}' || c == '\U{00A0}' || c == '\U{1680}'
    || ('\U{2000}' <= c <= '\U{200A}')
    || c == '\U{2028}' || c == '\U{2029}' || c == '\U{202F}' || c == '\U{205F}' || c == '\U{3000}'
  }

  function TrimLeft(s: string): (r: string)
    ensures |r| <= |s|
  {
    if |s| > 0 && IsSpace(s[0]) then TrimLeft(s[1..]) else s
  }

  function TrimRight(s: string): (r: string)
    ensures |r| <= |s|
  {
    if |s| > 0 && IsSpace(s[|s| - 1]) then TrimRight(s[..|s| - 1]) else s
  }

  /** TrimLeft drops exactly the leading white space. */
  lemma {:induction false} TrimLeftSpec(s: string)
    ensures var r := TrimLeft(s);
      r == s[|s| - |r|..]
      && (|r| > 0 ==> !IsSpace(r[0]))
      && forall i :: 0 <= i < |s| - |r| ==> IsSpace(s[i])
    decreases |s|
  {
    if |s| > 0 && IsSpace(s[0]) {
      TrimLeftSpec(s[1..]);
    }
  }

  /** TrimRight drops exactly the trailing white space. */
  lemma {:induction false} TrimRightSpec(s: string)
    ensures var r := TrimRight(s);
      r == s[..|r|]
      && (|r| > 0 ==> !IsSpace(r[|r| - 1]))
      && forall i :: |r| <= i < |s| ==> IsSpace(s[i])
    decreases |s|
  {
    if |s| > 0 && IsSpace(s[|s| - 1]) {
      TrimRightSpec(s[..|s| - 1]);
    }
  }

  /** strings.TrimSpace: drops leading and trailing white space. */
  function Trim(s: string): (r: string)
    ensures |r| <= |s|
  {
    TrimRight(TrimLeft(s))
  }

  /** Where the trimmed text starts in s. */
  function TrimStart(s: string): nat {
    |s| - |TrimLeft(s)|
  }

  /** Trim(s) is a slice of s with no white space at either end, and only white space was cut. */
  lemma TrimSpec(s: string)
    ensures var r, k := Trim(s), TrimStart(s);
      k + |r| <= |s| && r == s[k..k + |r|]
      && (|r| > 0 ==> !IsSpace(r[0]) && !IsSpace(r[|r| - 1]))
      && (forall i :: 0 <= i < k ==> IsSpace(s[i]))
      && (forall i :: k + |r| <= i < |s| ==> IsSpace(s[i]))
  {
    var l := TrimLeft(s);
    TrimLeftSpec(s);
    TrimRightSpec(l);
    var r := Trim(s);
    var k := TrimStart(s);
    forall i | k + |r| <= i < |s| ensures IsSpace(s[i]) {
      assert s[i] == l[i - k];
    }
  }

  lemma TrimIdempotent(s: string)
    ensures Trim(Trim(s)) == Trim(s)
  {
    var t := Trim(s);
    TrimSpec(s);
    if |t| > 0 {
      assert TrimLeft(t) == t;
      assert TrimRight(t) == t;
    }
  }

  lemma TrimEmptyIffAllSpace(s: string)
    ensures Trim(s) == "" <==> forall i :: 0 <= i < |s| ==> IsSpace(s[i])
  {
    TrimSpec(s);
    if Trim(s) != "" {
      var k := TrimStart(s);
      assert s[k] == Trim(s)[0];
    }
  }

  // ---------------------------------------------------------------------------
  // Case mapping (ASCII letters only)
  // ---------------------------------------------------------------------------

  function LowerChar(c: char): char {
    if 'A' <= c <= 'Z' then (c as int + 32) as char else c
  }

  function UpperChar(c: char): char {
    if 'a' <= c <= 'z' then (c as int - 32) as char else c
  }

  /** strings.ToLower */
  function Lower(s: string): (r: string)
    ensures |r| == |s|
  {
    seq(|s|, i requires 0 <= i < |s| => LowerChar(s[i]))
  }

  /** strings.ToUpper */
  function Upper(s: string): (r: string)
    ensures |r| == |s|
  {
    seq(|s|, i requires 0 <= i < |s| => UpperChar(s[i]))
  }

  /** strings.EqualFold: equality under case folding. */
  predicate EqualFold(a: string, b: string) {
    Lower(a) == Lower(b)
  }

  lemma LowerIdempotent(s: string)
    ensures Lower(Lower(s)) == Lower(s)
  {
  }

  lemma LowerAppend(a: string, b: string)
    ensures Lower(a + b) == Lower(a) + Lower(b)
  {
  }

  lemma {:induction false} TrimLeftLower(s: string)
    ensures TrimLeft(Lower(s)) == Lower(TrimLeft(s))
    decreases |s|
  {
    if |s| > 0 && IsSpace(s[0]) {
      assert Lower(s)[1..] == Lower(s[1..]);
      TrimLeftLower(s[1..]);
    }
  }

  lemma {:induction false} TrimRightLower(s: string)
    ensures TrimRight(Lower(s)) == Lower(TrimRight(s))
    decreases |s|
  {
    if |s| > 0 && IsSpace(s[|s| - 1]) {
      assert Lower(s)[..|s| - 1] == Lower(s[..|s| - 1]);
      TrimRightLower(s[..|s| - 1]);
    }
  }

  /** Lowering and trimming commute: case mapping never touches white space. */
  lemma TrimLower(s: string)
    ensures Trim(Lower(s)) == Lower(Trim(s))
  {
    TrimLeftLower(s);
    TrimRightLower(TrimLeft(s));
  }

  // ---------------------------------------------------------------------------
  // Searching
  // ---------------------------------------------------------------------------

  ghost predicate OccursAt(s: string, p: string, i: int) {
    0 <= i && i + |p| <= |s| && s[i..i + |p|] == p
  }

  function IndexFrom(s: string, p: string, from: nat): (r: int)
    ensures r == -1 || (from <= r && OccursAt(s, p, r))
    ensures r == -1 ==> forall i :: from <= i ==> !OccursAt(s, p, i)
    ensures r != -1 ==> forall i :: from <= i < r ==> !OccursAt(s, p, i)
    decreases |s| - from
  {
    if from + |p| > |s| then -1
    else if s[from..from + |p|] == p then from
    else IndexFrom(s, p, from + 1)
  }

  /** strings.Index: the first occurrence of p in s, or -1. */
  function IndexOf(s: string, p: string): (r: int)
    ensures r == -1 || OccursAt(s, p, r)
    ensures r == -1 <==> forall i :: !OccursAt(s, p, i)
    ensures r != -1 ==> forall i :: 0 <= i < r ==> !OccursAt(s, p, i)
  {
    IndexFrom(s, p, 0)
  }

  /** strings.Contains */
  predicate Contains(s: string, p: string) {
    IndexOf(s, p) >= 0
  }

  /** s contains p exactly when p occurs in s at some index. */
  lemma ContainsOccurs(s: string, p: string)
    ensures Contains(s, p) <==> exists i :: OccursAt(s, p, i)
  {
  }

  /** strings.HasPrefix */
  predicate HasPrefix(s: string, p: string) {
    |p| <= |s| && s[..|p|] == p
  }

  /** A proper substring is strictly shorter, also in UTF-8 bytes. */
  lemma ContainsShorter(s: string, p: string)
    requires Contains(s, p) && s != p
    ensures |p| < |s| && Utf8Len(p) < Utf8Len(s)
  {
    ContainsOccurs(s, p);
    var i :| OccursAt(s, p, i);
    assert s == s[..i] + p + s[i + |p|..];
    Utf8LenAppend(s[..i] + p, s[i + |p|..]);
    Utf8LenAppend(s[..i], p);
    Utf8LenPositive(s[..i]);
    Utf8LenPositive(s[i + |p|..]);
  }

  // ---------------------------------------------------------------------------
  // Replacing, splitting and joining
  // ---------------------------------------------------------------------------

  /** strings.ReplaceAll(s, p, ""): left-to-right, non-overlapping removal. */
  function RemoveAll(s: string, p: string): (r: string)
    ensures |r| <= |s|
    decreases |s|
  {
    if |p| == 0 || |s| == 0 then s
    else if |p| <= |s| && s[..|p|] == p then RemoveAll(s[|p|..], p)
    else [s[0]] + RemoveAll(s[1..], p)
  }

  /** strings.Split(s, [c]): the pieces between occurrences of c, always at least one. */
  function Split(s: string, c: char): (r: seq<string>)
    ensures |r| >= 1
    ensures forall i :: 0 <= i < |r| ==> c !in r[i]
  {
    if |s| == 0 then [""]
    else
      var rest := Split(s[1..], c);
      if s[0] == c then [""] + rest
      else [[s[0]] + rest[0]] + rest[1..]
  }

  /** strings.Split(s, "\n") */
  function SplitLines(s: string): (r: seq<string>)
    ensures |r| >= 1
    ensures forall i :: 0 <= i < |r| ==> '\n' !in r[i]
  {
    Split(s, '\n')
  }

  /** The number of occurrences of c in s. */
  function Count(s: string, c: char): nat {
    if |s| == 0 then 0 else (if s[0] == c then 1 else 0) + Count(s[1..], c)
  }

  /** Splitting yields one more piece than there are separators. */
  lemma {:induction false} SplitCount(s: string, c: char)
    ensures |Split(s, c)| == Count(s, c) + 1
    decreases |s|
  {
    if |s| > 0 {
      SplitCount(s[1..], c);
    }
  }

  /** strings.Join */
  function Join(parts: seq<string>, sep: string): string {
    if |parts| == 0 then ""
    else if |parts| == 1 then parts[0]
    else parts[0] + sep + Join(parts[1..], sep)
  }

  lemma JoinConsHead(c: char, parts: seq<string>, sep: string)
    requires |parts| >= 1
    ensures Join([[c] + parts[0]] + parts[1..], sep) == [c] + Join(parts, sep)
  {
    var q := [[c] + parts[0]] + parts[1..];
    assert q[1..] == parts[1..];
  }

  /** Splitting on a character and joining back with it is the identity. */
  lemma {:induction false} SplitJoin(s: string, c: char)
    ensures Join(Split(s, c), [c]) == s
    decreases |s|
  {
    if |s| > 0 {
      var rest := Split(s[1..], c);
      SplitJoin(s[1..], c);
      if s[0] == c {
        assert ([""] + rest)[1..] == rest;
      } else {
        JoinConsHead(s[0], rest, [c]);
      }
      assert s == [s[0]] + s[1..];
    }
  }

  /** Splitting on newlines and joining back with newlines is the identity. */
  lemma SplitJoinRoundTrip(s: string)
    ensures Join(SplitLines(s), "\n") == s
  {
    SplitJoin(s, '\n');
  }

  // ---------------------------------------------------------------------------
  // Subsequences: the text a sanitiser leaves behind
  // ---------------------------------------------------------------------------

  /** a can be obtained from b by deleting characters. */
  predicate Subseq(a: string, b: string)
    decreases |b|
  {
    if |a| == 0 then true
    else if |b| == 0 then false
    else (a[0] == b[0] && Subseq(a[1..], b[1..])) || Subseq(a, b[1..])
  }

  lemma {:induction false} SubseqTrans(a: string, b: string, c: string)
    requires Subseq(a, b) && Subseq(b, c)
    ensures Subseq(a, c)
    decreases |c|
  {
    if |a| > 0 {
      if b[0] == c[0] && Subseq(b[1..], c[1..]) {
        if a[0] == b[0] && Subseq(a[1..], b[1..]) {
          SubseqTrans(a[1..], b[1..], c[1..]);
        } else {
          SubseqTrans(a, b[1..], c[1..]);
        }
      } else {
        SubseqTrans(a, b, c[1..]);
      }
    }
  }

  lemma {:induction false} SubseqRefl(s: string)
    ensures Subseq(s, s)
    decreases |s|
  {
    if |s| > 0 {
      SubseqRefl(s[1..]);
    }
  }

  lemma {:induction false} SliceSubseq(s: string, i: nat, j: nat)
    requires i <= j <= |s|
    ensures Subseq(s[i..j], s)
    decreases |s|
  {
    if i > 0 {
      assert s[1..][i - 1..j - 1] == s[i..j];
      SliceSubseq(s[1..], i - 1, j - 1);
    } else if j > 0 {
      assert s[1..][0..j - 1] == s[i..j][1..];
      SliceSubseq(s[1..], 0, j - 1);
    }
  }

  lemma TrimSubseq(s: string)
    ensures Subseq(Trim(s), s)
  {
    TrimSpec(s);
    SliceSubseq(s, TrimStart(s), TrimStart(s) + |Trim(s)|);
  }

  lemma {:induction false} RemoveAllSubseq(s: string, p: string)
    ensures Subseq(RemoveAll(s, p), s)
    decreases |s|
  {
    if |p| == 0 || |s| == 0 {
      SubseqRefl(s);
    } else if |p| <= |s| && s[..|p|] == p {
      RemoveAllSubseq(s[|p|..], p);
      SliceSubseq(s, |p|, |s|);
      assert s[|p|..|s|] == s[|p|..];
      SubseqTrans(RemoveAll(s[|p|..], p), s[|p|..], s);
    } else {
      RemoveAllSubseq(s[1..], p);
      var r := [s[0]] + RemoveAll(s[1..], p);
      assert r[1..] == RemoveAll(s[1..], p);
    }
  }

  // ---------------------------------------------------------------------------
  // Regular-expression character classes
  // ---------------------------------------------------------------------------

  /** RE2's `\s`: ASCII white space only. */
  predicate IsRegexSpace(c: char) {
    c == '\t' || c == '\n' || c == '\U{000C}' || c == '\r' || c == ' '
  }

  /** A finite part of Unicode category P: ASCII punctuation and common CJK marks. */
  predicate IsPunct(c: char) {
    c in "!\"#%&'()*,-./:;?@[\\]_{}" || c in "、。〈〉《》「」『』【】〔〕！（），：；？…—·“”‘’"
  }

  /** regexp `[\s\p{P}]+` replaced by "": every space or punctuation character dropped. */
  function StripSpacePunct(s: string): (r: string)
    ensures |r| <= |s|
    ensures forall i :: 0 <= i < |r| ==> !IsRegexSpace(r[i]) && !IsPunct(r[i])
  {
    if |s| == 0 then ""
    else if IsRegexSpace(s[0]) || IsPunct(s[0]) then StripSpacePunct(s[1..])
    else [s[0]] + StripSpacePunct(s[1..])
  }

  // ---------------------------------------------------------------------------
  // UTF-8
  // ---------------------------------------------------------------------------

  function CharUtf8Len(c: char): nat {
    var v := c as int;
    if v < 0x80 then 1 else if v < 0x800 then 2 else if v < 0x10000 then 3 else 4
  }

  /** Go's len(s): the number of bytes of the UTF-8 encoding. */
  function Utf8Len(s: string): nat {
    if |s| == 0 then 0 else CharUtf8Len(s[0]) + Utf8Len(s[1..])
  }

  lemma {:induction false} Utf8LenAppend(a: string, b: string)
    ensures Utf8Len(a + b) == Utf8Len(a) + Utf8Len(b)
    decreases |a|
  {
    if |a| > 0 {
      assert (a + b)[0] == a[0] && (a + b)[1..] == a[1..] + b;
      Utf8LenAppend(a[1..], b);
    } else {
      assert a + b == b;
    }
  }

  lemma {:induction false} Utf8LenPositive(s: string)
    ensures |s| <= Utf8Len(s)
    decreases |s|
  {
    if |s| > 0 {
      Utf8LenPositive(s[1..]);
    }
  }

  function EncodeChar(c: char): (r: seq<byte>)
    ensures |r| == CharUtf8Len(c)
  {
    var v := c as int;
    if v < 0x80 then [v]
    else if v < 0x800 then [0xC0 + v / 64, 0x80 + v % 64]
    else if v < 0x10000 then [0xE0 + v / 4096, 0x80 + (v / 64) % 64, 0x80 + v % 64]
    else [0xF0 + v / 262144, 0x80 + (v / 4096) % 64, 0x80 + (v / 64) % 64, 0x80 + v % 64]
  }

  /** []byte(s) */
  function Utf8Encode(s: string): (r: seq<byte>)
    ensures |r| == Utf8Len(s)
  {
    if |s| == 0 then [] else EncodeChar(s[0]) + Utf8Encode(s[1..])
  }

  /** The encoding of a concatenation is the concatenation of the encodings. */
  lemma {:induction false} Utf8EncodeAppend(a: string, b: string)
    ensures Utf8Encode(a + b) == Utf8Encode(a) + Utf8Encode(b)
    decreases |a|
  {
    if |a| > 0 {
      assert (a + b)[0] == a[0] && (a + b)[1..] == a[1..] + b;
      Utf8EncodeAppend(a[1..], b);
      var e := EncodeChar(a[0]);
      assert Utf8Encode(a + b) == e + Utf8Encode(a[1..] + b);
      assert e + (Utf8Encode(a[1..]) + Utf8Encode(b)) == (e + Utf8Encode(a[1..])) + Utf8Encode(b);
    } else {
      assert a + b == b;
    }
  }

  /** Decimal rendering of a natural number (fmt's %d / text/template's int printing). */
  function NatToString(n: nat): (r: string)
    ensures |r| >= 1
    ensures forall i :: 0 <= i < |r| ==> '0' <= r[i] <= '9'
    decreases n
  {
    var d := ['0' + (n % 10) as char];
    if n < 10 then d else NatToString(n / 10) + d
  }

  /** Decimal rendering of an integer. */
  function IntToString(n: int): string {
    if n < 0 then "-" + NatToString(-n) else NatToString(n)
  }

  /** The concatenation of the parts, in order (text/template output of a range). */
  function Concat(parts: seq<string>): string {
    if |parts| == 0 then "" else parts[0] + Concat(parts[1..])
  }

  /** A string occurs in any text it is glued into. */
  lemma ContainsMiddle(a: string, p: string, b: string)
    ensures Contains(a + p + b, p)
  {
    assert (a + p + b)[|a|..|a| + |p|] == p;
    assert OccursAt(a + p + b, p, |a|);
    ContainsOccurs(a + p + b, p);
  }

  /** Each part occurs in the concatenation. */
  lemma {:induction false} ConcatContains(parts: seq<string>, i: nat)
    requires i < |parts|
    ensures Contains(Concat(parts), parts[i])
    decreases i
  {
    if i == 0 {
      ContainsMiddle("", parts[0], Concat(parts[1..]));
      assert "" + parts[0] + Concat(parts[1..]) == Concat(parts);
    } else {
      ConcatContains(parts[1..], i - 1);
      var rest := Concat(parts[1..]);
      ContainsOccurs(rest, parts[i]);
      var k :| OccursAt(rest, parts[i], k);
      assert Concat(parts)[|parts[0]| + k..|parts[0]| + k + |parts[i]|] == rest[k..k + |parts[i]|];
      assert OccursAt(Concat(parts), parts[i], |parts[0]| + k);
      ContainsOccurs(Concat(parts), parts[i]);
    }
  }

  /** What occurs in the middle part occurs in the whole. */
  lemma ContainsWithin(a: string, m: string, b: string, p: string)
    requires Contains(m, p)
    ensures Contains(a + m + b, p)
  {
    ContainsOccurs(m, p);
    var k :| OccursAt(m, p, k);
    assert (a + m + b)[|a| + k..|a| + k + |p|] == m[k..k + |p|];
    assert OccursAt(a + m + b, p, |a| + k);
    ContainsOccurs(a + m + b, p);
  }
}
