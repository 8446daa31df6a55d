/** String helpers shared by the server routes and the seeder: whitespace trimming (JavaScript
    `trim`, Python `strip`), ASCII case mapping, prefix and suffix tests, substring search and
    splitting on a one-character separator, and JavaScript's UTF-16 string length. */
module Text {

  /** The whitespace both `trim` and `strip` remove: the space and the controls tab through
      carriage return. Python's `strip` also removes the separators U+001C to U+001F, and both
      remove Unicode spaces; those are not whitespace here. */
  predicate IsSpace(c: char) {
    c == ' ' || ('\t' <= c <= '\r')
  }

  /** JavaScript's `\s` class in a regular expression: the ECMAScript WhiteSpace and
      LineTerminator characters (the Unicode space separators, the no-break space, the byte
      order mark and the line and paragraph separators, besides `IsSpace`). */
  predicate IsJsSpace(c: char) {
    || IsSpace(c)
    || c == '\U{A0}' || c == '\U{1680}' || ('\U{2000}' <= c <= '\U{200A}')
    || c == '\U{2028}' || c == '\U{2029}' || c == '\U{202F}' || c == '\U{205F}'
    || c == '\U{3000}' || c == '\U{FEFF}'
  }

  predicate AllSpace(s: string) {
    forall i :: 0 <= i < |s| ==> IsSpace(s[i])
  }

  /** JavaScript's `length`: the number of UTF-16 code units. A character outside the Basic
      Multilingual Plane is stored as a surrogate pair and counts twice. */
  function Utf16Length(s: string): (n: nat)
    ensures |s| <= n <= 2 * |s|
    ensures (forall i :: 0 <= i < |s| ==> s[i] as int < 0x1_0000) ==> n == |s|
    ensures |s| == 1 ==> n == if s[0] as int < 0x1_0000 then 1 else 2
  {
    if s == [] then 0 else (if s[0] as int < 0x1_0000 then 1 else 2) + Utf16Length(s[1..])
  }

  /** The count is additive, so with the one-character case it fixes the length of every
      string: one unit per character, two for each one outside the Basic Multilingual Plane. */
  lemma {:induction false} Utf16LengthAppend(a: string, b: string)
    ensures Utf16Length(a + b) == Utf16Length(a) + Utf16Length(b)
  {
    if a == [] {
      assert a + b == b;
    } else {
      assert (a + b)[1..] == a[1..] + b;
      Utf16LengthAppend(a[1..], b);
    }
  }

  /** Drops leading whitespace. */
  function TrimStart(s: string): (r: string)
    ensures |r| <= |s|
    ensures r == [] || !IsSpace(r[0])
  {
    if |s| > 0 && IsSpace(s[0]) then TrimStart(s[1..]) else s
  }

  /** What `TrimStart` drops is a run of whitespace, and what it keeps is the rest. */
  lemma {:induction false} TrimStartShape(s: string)
    ensures var r := TrimStart(s); s == s[..|s| - |r|] + r && AllSpace(s[..|s| - |r|])
  {
    if |s| > 0 && IsSpace(s[0]) {
      TrimStartShape(s[1..]);
      var r := TrimStart(s);
      assert s[1..] == s[1..][..|s| - 1 - |r|] + r;
      assert s[..|s| - |r|] == [s[0]] + s[1..][..|s| - 1 - |r|];
    }
  }

  /** Drops trailing whitespace. */
  function TrimEnd(s: string): (r: string)
    ensures |r| <= |s|
    ensures r == [] || !IsSpace(r[|r| - 1])
    ensures r == [] || r[0] == s[0]
  {
    if |s| > 0 && IsSpace(s[|s| - 1]) then TrimEnd(s[..|s| - 1]) else s
  }

  /** What `TrimEnd` keeps is a prefix, and what it drops is a run of whitespace. */
  lemma {:induction false} TrimEndShape(s: string)
    ensures var r := TrimEnd(s); s == r + s[|r|..] && AllSpace(s[|r|..])
  {
    if |s| > 0 && IsSpace(s[|s| - 1]) {
      var t := s[..|s| - 1];
      TrimEndShape(t);
      var r := TrimEnd(s);
      assert t == r + t[|r|..];
      assert s == t + [s[|s| - 1]];
      assert s[|r|..] == t[|r|..] + [s[|s| - 1]];
    } else {
      assert s[|s|..] == [];
    }
  }

  /** Drops whitespace at both ends. */
  function Trim(s: string): (r: string)
    ensures |r| <= |s|
    ensures r == [] || (!IsSpace(r[0]) && !IsSpace(r[|r| - 1]))
  {
    TrimEnd(TrimStart(s))
  }

  /** The trimmed string is the part of `s` between a run of whitespace at its start and a
      run at its end. */
  lemma TrimShape(s: string)
    ensures var k := |s| - |TrimStart(s)|; var r := Trim(s);
      k + |r| <= |s| && s == s[..k] + r + s[k + |r|..] && AllSpace(s[..k]) && AllSpace(s[k + |r|..])
  {
    var t := TrimStart(s);
    var k := |s| - |t|;
    var r := Trim(s);
    TrimStartShape(s);
    TrimEndShape(t);
    assert s[..k] + t == s;
    assert t == r + t[|r|..];
    assert s[k + |r|..] == t[|r|..];
  }

  /** A string without whitespace at either end is its own trim. */
  lemma TrimUnpadded(s: string)
    requires s == [] || (!IsSpace(s[0]) && !IsSpace(s[|s| - 1]))
    ensures Trim(s) == s
  {
  }

  lemma TrimIdempotent(s: string)
    ensures Trim(Trim(s)) == Trim(s)
  {
    TrimUnpadded(Trim(s));
  }

  /** Whitespace added around a string does not survive trimming. */
  lemma {:induction false} TrimPadded(p: string, s: string, q: string)
    requires AllSpace(p) && AllSpace(q)
    ensures Trim(p + s + q) == Trim(s)
  {
    TrimStartPadded(p, s + q);
    assert p + s + q == p + (s + q);
    TrimEndPadded(TrimStart(s + q), q);
    TrimStartSuffix(s, q);
    TrimEndPadded(TrimStart(s), q);
  }

  lemma {:induction false} TrimStartPadded(p: string, s: string)
    requires AllSpace(p)
    ensures TrimStart(p + s) == TrimStart(s)
  {
    if p != [] {
      assert (p + s)[0] == p[0];
      assert (p + s)[1..] == p[1..] + s;
      TrimStartPadded(p[1..], s);
    } else {
      assert p + s == s;
    }
  }

  lemma {:induction false} TrimEndPadded(s: string, q: string)
    requires AllSpace(q)
    ensures TrimEnd(s + q) == TrimEnd(s)
  {
    if q != [] {
      assert (s + q)[|s + q| - 1] == q[|q| - 1];
      assert (s + q)[..|s + q| - 1] == s + q[..|q| - 1];
      TrimEndPadded(s, q[..|q| - 1]);
    } else {
      assert s + q == s;
    }
  }

  /** Trailing whitespace can be appended before or after trimming the start, except when
      everything is whitespace, which both sides then trim away. */
  lemma {:induction false} TrimStartSuffix(s: string, q: string)
    requires AllSpace(q)
    ensures TrimEnd(TrimStart(s + q)) == TrimEnd(TrimStart(s) + q)
  {
    if |s| > 0 && IsSpace(s[0]) {
      assert (s + q)[1..] == s[1..] + q;
      TrimStartSuffix(s[1..], q);
    } else if |s| == 0 {
      TrimStartPadded(q, []);
      assert q + [] == q;
      TrimEndPadded([], q);
      assert [] + q == q;
      TrimEndPadded(TrimStart(q), []);
      assert TrimStart(q) + [] == TrimStart(q);
      assert AllSpace(TrimStart(q)) by {
        TrimStartShape(q);
        assert TrimStart(q) == q[|q| - |TrimStart(q)|..];
      }
      AllSpaceTrimEnd(TrimStart(q));
    }
  }

  lemma AllSpaceTrimEnd(s: string)
    requires AllSpace(s)
    ensures TrimEnd(s) == []
  {
  }

  function LowerChar(c: char): char {
    if 'A' <= c <= 'Z' then (c as int + 32) as char else c
  }

  function UpperChar(c: char): char {
    if 'a' <= c <= 'z' then (c as int - 32) as char else c
  }

  /** ASCII lower-casing, character by character. */
  function Lower(s: string): (r: string)
    ensures |r| == |s|
    ensures forall i :: 0 <= i < |s| ==> r[i] == LowerChar(s[i])
  {
    if s == [] then [] else [LowerChar(s[0])] + Lower(s[1..])
  }

  lemma LowerIdempotent(s: string)
    ensures Lower(Lower(s)) == Lower(s)
  {
    var l := Lower(s);
    forall i | 0 <= i < |l|
      ensures Lower(l)[i] == l[i]
    {
      var c := s[i];
      assert l[i] == LowerChar(c);
      if 'A' <= c <= 'Z' {
        assert 'a' <= l[i] <= 'z';
      }
    }
  }

  /** Trimming keeps a lower-case string lower-case. */
  lemma TrimKeepsLower(s: string)
    requires Lower(s) == s
    ensures Lower(Trim(s)) == Trim(s)
  {
    var r := Trim(s);
    var k := |s| - |TrimStart(s)|;
    TrimShape(s);
    forall i | 0 <= i < |r|
      ensures Lower(r)[i] == r[i]
    {
      assert r[i] == s[k + i];
      assert Lower(s)[k + i] == LowerChar(s[k + i]);
    }
  }

  /** ASCII upper-casing, character by character. */
  function Upper(s: string): (r: string)
    ensures |r| == |s|
    ensures forall i :: 0 <= i < |s| ==> r[i] == UpperChar(s[i])
  {
    if s == [] then [] else [UpperChar(s[0])] + Upper(s[1..])
  }

  predicate StartsWith(s: string, p: string) {
    |p| <= |s| && s[..|p|] == p
  }

  predicate EndsWith(s: string, p: string) {
    |p| <= |s| && s[|s| - |p|..] == p
  }

  /** `needle` sits in `hay` at position `i`. */
  predicate OccursAt(hay: string, needle: string, i: int) {
    0 <= i && i + |needle| <= |hay| && hay[i..i + |needle|] == needle
  }

  /** `needle` occurs in `hay` at some position. */
  predicate Contains(hay: string, needle: string)
    decreases |hay|
  {
    StartsWith(hay, needle) || (|hay| > 0 && |needle| <= |hay| && Contains(hay[1..], needle))
  }

  /** `Contains` holds exactly when the needle occurs at some position of the haystack. */
  lemma {:induction false} ContainsIff(hay: string, needle: string)
    ensures Contains(hay, needle) <==> exists i :: OccursAt(hay, needle, i)
    decreases |hay|
  {
    if StartsWith(hay, needle) {
      assert OccursAt(hay, needle, 0);
    } else if |hay| > 0 && |needle| <= |hay| {
      ContainsIff(hay[1..], needle);
      if Contains(hay[1..], needle) {
        var i :| OccursAt(hay[1..], needle, i);
        SliceOfTail(hay, i + 1, |needle|);
        assert OccursAt(hay, needle, i + 1);
      } else {
        forall i | 0 <= i
          ensures !OccursAt(hay, needle, i)
        {
          if i == 0 {
            assert hay[0..|needle|] == hay[..|needle|];
          } else if i + |needle| <= |hay| {
            SliceOfTail(hay, i, |needle|);
            assert !OccursAt(hay[1..], needle, i - 1);
          }
        }
      }
    } else {
      forall i | 0 <= i
        ensures !OccursAt(hay, needle, i)
      {
      }
    }
  }

  /** A slice of the tail is the slice one position further on. */
  lemma SliceOfTail(hay: string, i: int, n: nat)
    requires 1 <= i && i + n <= |hay|
    ensures hay[1..][i - 1..i - 1 + n] == hay[i..i + n]
  {
    var t := hay[1..][i - 1..i - 1 + n];
    assert forall k :: 0 <= k < n ==> t[k] == hay[i + k];
  }

  /** Case-insensitive substring test: how a regular expression without metacharacters,
      used with the `i` option, matches. */
  predicate ContainsIgnoringCase(hay: string, needle: string) {
    Contains(Lower(hay), Lower(needle))
  }

  /** Position of the first `d` in `s`. */
  function IndexOf(s: string, d: char): (i: nat)
    requires d in s
    ensures i < |s| && s[i] == d && d !in s[..i]
    ensures forall j :: 0 <= j < i ==> s[j] != d
  {
    if s[0] == d then 0 else 1 + IndexOf(s[1..], d)
  }

  /** The pieces joined back with the separator between them. */
  function Join(pieces: seq<string>, d: char): string {
    if |pieces| == 0 then []
    else if |pieces| == 1 then pieces[0]
    else pieces[0] + [d] + Join(pieces[1..], d)
  }

  /** JavaScript `split(d)` and Python `split(d)` for a one-character separator: the maximal
      separator-free pieces, in order, so that joining them again gives back `s`. */
  function Split(s: string, d: char): (pieces: seq<string>)
    ensures |pieces| >= 1
    ensures forall i :: 0 <= i < |pieces| ==> d !in pieces[i]
    ensures Join(pieces, d) == s
    decreases |s|
  {
    if d !in s then [s]
    else
      var i := IndexOf(s, d);
      assert s == s[..i] + [d] + s[i + 1..];
      [s[..i]] + Split(s[i + 1..], d)
  }

  /** Splitting a string made of a separator-free head, the separator and a tail. */
  lemma SplitAt(a: string, d: char, b: string)
    requires d !in a
    ensures Split(a + [d] + b, d) == [a] + Split(b, d)
  {
    var s := a + [d] + b;
    assert d in s by { assert s[|a|] == d; }
    assert forall j :: 0 <= j < |a| ==> s[j] == a[j];
    var i := IndexOf(s, d);
    assert s[|a|] == d;
    assert i <= |a|;
    assert s[i] == d;
    assert i == |a|;
    assert s[..i] == a;
    assert s[i + 1..] == b;
  }

  lemma SplitNone(s: string, d: char)
    requires d !in s
    ensures Split(s, d) == [s]
  {
  }

  /** Lexicographic order on character codes: how MongoDB sorts ASCII strings. */
  predicate StrLe(a: string, b: string)
    decreases |a|
  {
    a == [] || (b != [] && (a[0] < b[0] || (a[0] == b[0] && StrLe(a[1..], b[1..]))))
  }

  lemma {:induction false} StrLeTotal(a: string, b: string)
    ensures StrLe(a, b) || StrLe(b, a)
    decreases |a|
  {
    if a != [] && b != [] && a[0] == b[0] {
      StrLeTotal(a[1..], b[1..]);
    }
  }

  lemma {:induction false} StrLeTransitive(a: string, b: string, c: string)
    requires StrLe(a, b) && StrLe(b, c)
    ensures StrLe(a, c)
    decreases |a|
  {
    if a != [] && b != [] && c != [] && a[0] == b[0] && b[0] == c[0] {
      StrLeTransitive(a[1..], b[1..], c[1..]);
    }
  }

  /** `StrLe` is a total preorder. */
  lemma StrLeTotalOrder()
    ensures forall a, b :: StrLe(a, b) || StrLe(b, a)
    ensures forall a, b, c :: StrLe(a, b) && StrLe(b, c) ==> StrLe(a, c)
  {
    forall a, b
      ensures StrLe(a, b) || StrLe(b, a)
    {
      StrLeTotal(a, b);
    }
    forall a, b, c | StrLe(a, b) && StrLe(b, c)
      ensures StrLe(a, c)
    {
      StrLeTransitive(a, b, c);
    }
  }
}
