/**
 * Strings as sequences of Unicode scalar values. The three PHP functions the
 * plugin calls on strings are modelled here: `implode` (Join), `strlen` (a
 * UTF-8 byte count) and `strtoupper` (ASCII only). The rest are readers the
 * model adds to state round trips, not functions the plugin calls: `explode`
 * (Split), the first occurrence of a character, and cutting a string at a
 * marker.
 */
module Text {
  import opened Wrappers

  /** s holds sep starting at position i. */
  predicate StartsAt(s: string, sep: string, i: nat) {
    i + |sep| <= |s| && s[i..i + |sep|] == sep
  }

  /** s begins with p. */
  predicate StartsWith(s: string, p: string) {
    StartsAt(s, p, 0)
  }

  /**
   * No occurrence of sep starts inside p, even one that would run on into a
   * separator written right after p: p survives a round trip through
   * Join and Split as one part.
   */
  predicate SepFree(p: string, sep: string) {
    forall i :: 0 <= i < |p| ==> !StartsAt(p + sep, sep, i)
  }

  /** PHP implode(sep, parts): the parts in order, sep between neighbours. */
  function Join(parts: seq<string>, sep: string): string {
    if |parts| == 0 then ""
    else if |parts| == 1 then parts[0]
    else parts[0] + sep + Join(parts[1..], sep)
  }

  /** The rest of explode(sep, s), the part read so far being acc. */
  function SplitFrom(s: string, sep: string, acc: string): (parts: seq<string>)
    requires |sep| > 0
    ensures |parts| > 0
    decreases |s|
  {
    if |s| == 0 then [acc]
    else if StartsWith(s, sep) then [acc] + SplitFrom(s[|sep|..], sep, "")
    else SplitFrom(s[1..], sep, acc + [s[0]])
  }

  /**
   * PHP explode(sep, s): the pieces between the occurrences of sep, found
   * from left to right without overlap; s without sep is one piece.
   */
  function Split(s: string, sep: string): (parts: seq<string>)
    requires |sep| > 0
    ensures |parts| > 0
  {
    SplitFrom(s, sep, "")
  }

  /** A separator-free part followed by the separator is split off as one piece. */
  lemma {:induction false} SplitFromPart(p: string, rest: string, sep: string, acc: string)
    requires |sep| > 0 && SepFree(p, sep)
    ensures SplitFrom(p + sep + rest, sep, acc) == [acc + p] + SplitFrom(rest, sep, "")
    decreases |p|
  {
    var s := p + sep + rest;
    if p == [] {
      assert s == sep + rest && acc + p == acc;
      assert s[..|sep|] == sep;
      assert s[|sep|..] == rest;
    } else {
      assert !StartsAt(p + sep, sep, 0);
      assert s[..|sep|] == (p + sep)[0..|sep|];
      assert s[1..] == p[1..] + sep + rest;
      forall i | 0 <= i < |p[1..]|
        ensures !StartsAt(p[1..] + sep, sep, i)
      {
        assert !StartsAt(p + sep, sep, i + 1);
        assert (p[1..] + sep)[i..i + |sep|] == (p + sep)[i + 1..i + 1 + |sep|];
      }
      SplitFromPart(p[1..], rest, sep, acc + [p[0]]);
      assert acc + [p[0]] + p[1..] == acc + p;
    }
  }

  /** A separator-free last part is the last piece. */
  lemma {:induction false} SplitFromLast(p: string, sep: string, acc: string)
    requires |sep| > 0 && SepFree(p, sep)
    ensures SplitFrom(p, sep, acc) == [acc + p]
    decreases |p|
  {
    if p != [] {
      assert !StartsAt(p + sep, sep, 0);
      assert |sep| <= |p| ==> (p + sep)[0..|sep|] == p[0..|sep|];
      forall i | 0 <= i < |p[1..]|
        ensures !StartsAt(p[1..] + sep, sep, i)
      {
        assert !StartsAt(p + sep, sep, i + 1);
        assert (p[1..] + sep)[i..i + |sep|] == (p + sep)[i + 1..i + 1 + |sep|];
      }
      SplitFromLast(p[1..], sep, acc + [p[0]]);
      assert acc + [p[0]] + p[1..] == acc + p;
    } else {
      assert acc + p == acc;
    }
  }

  /**
   * explode undoes implode: joining at least one separator-free part and
   * splitting the result at the same separator gives back the parts.
   */
  lemma {:induction false} SplitJoin(parts: seq<string>, sep: string)
    requires |sep| > 0 && |parts| > 0
    requires forall i :: 0 <= i < |parts| ==> SepFree(parts[i], sep)
    ensures Split(Join(parts, sep), sep) == parts
  {
    if |parts| == 1 {
      SplitFromLast(parts[0], sep, "");
      assert "" + parts[0] == parts[0];
    } else {
      SplitJoin(parts[1..], sep);
      SplitFromPart(parts[0], Join(parts[1..], sep), sep, "");
      assert "" + parts[0] == parts[0];
      assert parts == [parts[0]] + parts[1..];
    }
  }

  /** A part in which the separator's first character never occurs is separator-free. */
  lemma AvoidsFirstIsSepFree(p: string, sep: string)
    requires |sep| > 0
    requires forall i :: 0 <= i < |p| ==> p[i] != sep[0]
    ensures SepFree(p, sep)
  {
    forall i | 0 <= i < |p|
      ensures !StartsAt(p + sep, sep, i)
    {
      assert (p + sep)[i] == p[i];
    }
  }

  /**
   * The index of the first c in s, or |s| when s has none: everything before
   * it differs from c.
   */
  function FirstIndexOf(s: string, c: char): (r: nat)
    ensures r <= |s|
    ensures forall i :: 0 <= i < r ==> s[i] != c
    ensures r < |s| ==> s[r] == c
  {
    if |s| == 0 || s[0] == c then 0 else 1 + FirstIndexOf(s[1..], c)
  }

  /** Searching p + q for c, where p has no c, finds the first c of q. */
  lemma {:induction false} FirstIndexOfAfter(p: string, q: string, c: char)
    requires forall i :: 0 <= i < |p| ==> p[i] != c
    requires |q| > 0 && q[0] == c
    ensures FirstIndexOf(p + q, c) == |p|
  {
    assert (p + q)[|p|] == c;
  }

  /** A string starts with each of its prefixes; what follows is the rest. */
  lemma PrefixCut(p: string, s: string)
    ensures StartsWith(p + s, p) && (p + s)[|p|..] == s
  {
    assert (p + s)[0..|p|] == p;
  }

  /** An occurrence in a string is still there when something is appended. */
  lemma StartsAtAppendRight(a: string, b: string, sep: string, i: nat)
    requires StartsAt(a, sep, i)
    ensures StartsAt(a + b, sep, i)
  {
    assert (a + b)[i..i + |sep|] == a[i..i + |sep|];
  }

  /** An occurrence in a string is still there, shifted, when something is prepended. */
  lemma StartsAtAppendLeft(a: string, b: string, sep: string, j: nat)
    requires StartsAt(b, sep, j)
    ensures StartsAt(a + b, sep, |a| + j)
  {
    assert (a + b)[|a| + j..|a| + j + |sep|] == b[j..j + |sep|];
  }

  /** The pieces of p + m + s are found again at their positions. */
  lemma Framed(p: string, m: string, s: string)
    ensures var t := p + m + s;
      t[..|p|] == p && t[|t| - |s|..] == s && t[|p|..|t| - |s|] == m
  {
  }

  /**
   * Cuts s at the first c, which must begin marker: the text before it and
   * the text after the marker.
   */
  function CutAt(s: string, c: char, marker: string): (r: Option<(string, string)>)
    ensures r.Some? ==> s == r.value.0 + marker + r.value.1
  {
    var i := FirstIndexOf(s, c);
    if StartsWith(s[i..], marker) then
      assert s == s[..i] + marker + s[i + |marker|..] by {
        assert s[i..][..|marker|] == marker;
        assert s[i..] == s[i..][..|marker|] + s[i + |marker|..];
      }
      Some((s[..i], s[i + |marker|..]))
    else None
  }

  /** A part without the marker's first character is cut off again exactly. */
  lemma CutAtJoin(p: string, marker: string, rest: string)
    requires |marker| > 0
    requires forall i :: 0 <= i < |p| ==> p[i] != marker[0]
    ensures CutAt(p + marker + rest, marker[0], marker) == Some((p, rest))
  {
    var s := p + marker + rest;
    assert s == p + (marker + rest);
    FirstIndexOfAfter(p, marker + rest, marker[0]);
    assert s[..|p|] == p;
    assert s[|p|..] == marker + rest;
    assert (marker + rest)[..|marker|] == marker;
    assert s[|p| + |marker|..] == rest;
  }

  /** The number of bytes UTF-8 uses for c. */
  function Utf8Width(c: char): (n: nat)
    ensures 1 <= n <= 4
    ensures n == 1 <==> c as int < 0x80
  {
    if c as int < 0x80 then 1
    else if c as int < 0x800 then 2
    else if c as int < 0x10000 then 3
    else 4
  }

  /** PHP strlen: the length in bytes of the UTF-8 encoding of s. */
  function ByteLength(s: string): (n: nat)
    ensures |s| <= n <= 4 * |s|
  {
    if |s| == 0 then 0 else Utf8Width(s[0]) + ByteLength(s[1..])
  }

  /** A string of ASCII characters takes one byte per character. */
  lemma {:induction false} AsciiByteLength(s: string)
    requires forall i :: 0 <= i < |s| ==> s[i] as int < 0x80
    ensures ByteLength(s) == |s|
  {
    if |s| > 0 {
      AsciiByteLength(s[1..]);
    }
  }

  /** Two bytes are one two-byte character or two one-byte (ASCII) characters. */
  lemma {:induction false} TwoBytes(s: string)
    ensures ByteLength(s) == 2 <==>
      (|s| == 1 && Utf8Width(s[0]) == 2) || (|s| == 2 && s[0] as int < 0x80 && s[1] as int < 0x80)
  {
    if |s| > 0 {
      if |s| > 1 {
        assert ByteLength(s[1..]) == Utf8Width(s[1]) + ByteLength(s[2..]);
      }
    }
  }

  predicate IsAsciiLower(c: char) {
    'a' <= c <= 'z'
  }

  predicate IsAsciiUpper(c: char) {
    'A' <= c <= 'Z'
  }

  /** strtoupper on one character: ASCII a-z become A-Z, every other character is kept. */
  function UpperChar(c: char): (u: char)
    ensures IsAsciiLower(c) ==> IsAsciiUpper(u) && u as int == c as int - 32
    ensures !IsAsciiLower(c) ==> u == c
    ensures !IsAsciiLower(u)
  {
    if IsAsciiLower(c) then (c as int - 32) as char else c
  }

  /** PHP strtoupper: ASCII letters are upper-cased one by one, nothing else changes. */
  function ToUpper(s: string): (u: string)
    ensures |u| == |s|
    ensures forall i :: 0 <= i < |s| ==> u[i] == UpperChar(s[i])
  {
    if |s| == 0 then "" else [UpperChar(s[0])] + ToUpper(s[1..])
  }

  /** Upper-casing twice is upper-casing once, and keeps the byte length. */
  lemma ToUpperIdempotent(s: string)
    ensures ToUpper(ToUpper(s)) == ToUpper(s)
    ensures ByteLength(ToUpper(s)) == ByteLength(s)
  {
    assert ToUpper(ToUpper(s)) == ToUpper(s);
    SameWidths(s, ToUpper(s));
  }

  /** Strings whose characters have the same widths, position by position, have the same byte length. */
  lemma {:induction false} SameWidths(s: string, t: string)
    requires |s| == |t|
    requires forall i :: 0 <= i < |s| ==> Utf8Width(s[i]) == Utf8Width(t[i])
    ensures ByteLength(s) == ByteLength(t)
  {
    if |s| > 0 {
      SameWidths(s[1..], t[1..]);
    }
  }
}
