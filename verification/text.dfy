/** Character-level string helpers with Python's semantics: `str.strip`,
    `str.lower` on ASCII letters, `startswith`, `endswith` and `in` on strings. */
module Text {

  /** The code points for which Python's `str.isspace()` holds; exactly the
      characters `str.strip()` removes when called without arguments. */
  predicate IsSpace(c: char) {
    || c == ' '
    || ('\t' <= c <= '\r')
    || ('\U{1C}' <= c <= '\U{1F}')
    || c == '\U{85}' || c == '\U{A0}' || c == '\U{1680}'
    || ('\U{2000}' <= c <= '\U{200A}')
    || c == '\U{2028}' || c == '\U{2029}' || c == '\U{202F}'
    || c == '\U{205F}' || c == '\U{3000}'
  }

  /** A string with no leading and no trailing whitespace. */
  predicate IsStripped(s: string) {
    s == [] || (!IsSpace(s[0]) && !IsSpace(s[|s| - 1]))
  }

  /** Python's `s.lstrip()`. */
  function LStrip(s: string): (r: string)
    ensures |r| <= |s| && r == s[|s| - |r|..]
    ensures r == [] || !IsSpace(r[0])
    ensures forall i :: 0 <= i < |s| - |r| ==> IsSpace(s[i])
  {
    if |s| > 0 && IsSpace(s[0]) then LStrip(s[1..]) else s
  }

  /** Python's `s.rstrip()`. */
  function RStrip(s: string): (r: string)
    ensures |r| <= |s| && r == s[..|r|]
    ensures r == [] || !IsSpace(r[|r| - 1])
    ensures forall i :: |r| <= i < |s| ==> IsSpace(s[i])
  {
    if |s| > 0 && IsSpace(s[|s| - 1]) then RStrip(s[..|s| - 1]) else s
  }

  /** Python's `s.strip()`: the longest infix of `s` with no whitespace at either end. */
  function Strip(s: string): (r: string)
    ensures IsStripped(r)
    ensures |r| <= |s|
    ensures exists k :: InfixAt(r, s, k)
    ensures IsStripped(s) ==> r == s
  {
    StripInfix(s);
    StrippedFixed(s);
    RStrip(LStrip(s))
  }

  lemma StripInfix(s: string)
    ensures InfixAt(RStrip(LStrip(s)), s, |s| - |LStrip(s)|)
  {
    var l := LStrip(s);
    var r := RStrip(l);
    SliceOfSuffix(s, |s| - |l|, |r|);
  }

  /** A prefix of a suffix is an infix. */
  lemma SliceOfSuffix(s: string, k: nat, n: nat)
    requires k + n <= |s|
    ensures s[k..k + n] == s[k..][..n]
  {
  }

  lemma StrippedFixed(s: string)
    ensures IsStripped(s) ==> RStrip(LStrip(s)) == s
  {
    if IsStripped(s) && s != [] {
      assert LStrip(s) == s;
    }
  }

  /** `r` occurs in `s` starting at index `k`. */
  predicate InfixAt(r: string, s: string, k: int) {
    0 <= k <= |s| - |r| && s[k..k + |r|] == r
  }

  lemma LStripAllSpace(s: string)
    requires forall i :: 0 <= i < |s| ==> IsSpace(s[i])
    ensures LStrip(s) == []
  {
    if |s| > 0 {
      LStripAllSpace(s[1..]);
    }
  }

  /** An all-whitespace string strips to nothing, and nothing else does. */
  lemma StripEmpty(s: string)
    ensures Strip(s) == [] <==> forall i :: 0 <= i < |s| ==> IsSpace(s[i])
  {
    if Strip(s) == [] {
      assert LStrip(s) == [];
    }
    if forall i :: 0 <= i < |s| ==> IsSpace(s[i]) {
      LStripAllSpace(s);
    }
  }

  /** Left-stripping a concatenation: the whitespace of the left part goes,
      and the right part follows untouched unless the left part was blank. */
  lemma {:induction false} LStripAppend(a: string, x: string)
    ensures LStrip(a + x) == if LStrip(a) == [] then LStrip(x) else LStrip(a) + x
    decreases |a|
  {
    if a == [] {
      assert a + x == x;
    } else if IsSpace(a[0]) {
      assert (a + x)[0] == a[0];
      assert (a + x)[1..] == a[1..] + x;
      LStripAppend(a[1..], x);
    } else {
      assert (a + x)[0] == a[0];
    }
  }

  /** Right-stripping a concatenation, symmetrically. */
  lemma {:induction false} RStripAppend(x: string, b: string)
    ensures RStrip(x + b) == if RStrip(b) == [] then RStrip(x) else x + RStrip(b)
    decreases |b|
  {
    if b == [] {
      assert x + b == x;
    } else if IsSpace(b[|b| - 1]) {
      assert (x + b)[|x + b| - 1] == b[|b| - 1];
      assert (x + b)[..|x + b| - 1] == x + b[..|b| - 1];
      RStripAppend(x, b[..|b| - 1]);
    } else {
      assert (x + b)[|x + b| - 1] == b[|b| - 1];
    }
  }

  /** Around a character that is not whitespace, stripping only touches the
      two ends: `(a + c + b).strip()` is `a.lstrip() + c + b.rstrip()`. */
  lemma StripAround(a: string, c: char, b: string)
    requires !IsSpace(c)
    ensures Strip(a + [c] + b) == LStrip(a) + [c] + RStrip(b)
  {
    var l := LStrip(a);
    assert LStrip(a + [c] + b) == l + [c] + b by {
      LStripBefore(a, c, b);
    }
    assert RStrip(l + [c] + b) == l + [c] + RStrip(b) by {
      RStripAfter(l, c, b);
    }
    StripIs(a + [c] + b);
  }

  lemma StripIs(s: string)
    ensures Strip(s) == RStrip(LStrip(s))
  {
  }

  lemma LStripBefore(a: string, c: char, b: string)
    requires !IsSpace(c)
    ensures LStrip(a + [c] + b) == LStrip(a) + [c] + b
  {
    var x := [c] + b;
    assert LStrip(x) == x by {
      assert x[0] == c;
      LStripInk(x);
    }
    AppendAssoc(a, [c], b);
    LStripAppend(a, x);
  }

  lemma RStripAfter(l: string, c: char, b: string)
    requires !IsSpace(c)
    ensures RStrip(l + [c] + b) == l + [c] + RStrip(b)
  {
    RStripAppend(l + [c], b);
    assert (l + [c])[|l + [c]| - 1] == c;
  }

  lemma LStripInk(x: string)
    requires x != [] && !IsSpace(x[0])
    ensures LStrip(x) == x
  {
  }

  lemma AppendAssoc(a: string, b: string, c: string)
    ensures a + b + c == a + (b + c)
  {
  }

  /** Stripping a left-stripped string is stripping the string. */
  lemma StripOfLStrip(s: string)
    ensures Strip(LStrip(s)) == Strip(s)
  {
    var l := LStrip(s);
    assert LStrip(l) == l;
  }

  /** The two one-sided strips commute. */
  lemma {:induction false} StripsCommute(s: string)
    ensures LStrip(RStrip(s)) == RStrip(LStrip(s))
    decreases |s|
  {
    if s != [] {
      if IsSpace(s[0]) {
        StripsCommute(s[1..]);
        CommuteSpaceHead(s);
      } else {
        CommuteInkHead(s);
      }
    }
  }

  lemma CommuteSpaceHead(s: string)
    requires s != [] && IsSpace(s[0])
    requires LStrip(RStrip(s[1..])) == RStrip(LStrip(s[1..]))
    ensures LStrip(RStrip(s)) == RStrip(LStrip(s))
  {
    SpaceHead(s);
  }

  lemma SpaceHead(s: string)
    requires s != [] && IsSpace(s[0])
    ensures LStrip(s) == LStrip(s[1..])
    ensures LStrip(RStrip(s)) == LStrip(RStrip(s[1..]))
  {
    var c, t := s[0], s[1..];
    assert s == [c] + t;
    RStripAppend([c], t);
    if RStrip(t) != [] {
      LStripAppend([c], RStrip(t));
    }
  }

  lemma CommuteInkHead(s: string)
    requires s != [] && !IsSpace(s[0])
    ensures LStrip(RStrip(s)) == RStrip(LStrip(s))
  {
    var r := RStrip(s);
    assert r != [];
    assert r[0] == s[0];
  }

  /** Stripping a right-stripped string is stripping the string. */
  lemma StripOfRStrip(s: string)
    ensures Strip(RStrip(s)) == Strip(s)
  {
    StripsCommute(s);
    var r := RStrip(LStrip(s));
    assert RStrip(r) == r;
  }

  /** A non-empty left-stripped text strips to a text with the same first character. */
  lemma StripFirst(s: string)
    requires LStrip(s) != []
    ensures Strip(s) != [] && Strip(s)[0] == LStrip(s)[0]
  {
  }

  /** Python's `str.lower()` restricted to ASCII letters. */
  function LowerChar(c: char): char {
    if 'A' <= c <= 'Z' then (c as int + 32) as char else c
  }

  function Lower(s: string): (r: string)
    ensures |r| == |s|
    ensures forall i :: 0 <= i < |s| ==> r[i] == LowerChar(s[i])
  {
    if s == [] then [] else [LowerChar(s[0])] + Lower(s[1..])
  }

  /** Lower-casing neither makes nor removes whitespace. */
  lemma SpaceLower(c: char)
    ensures IsSpace(LowerChar(c)) <==> IsSpace(c)
  {
  }

  lemma {:induction false} LowerAppend(a: string, b: string)
    ensures Lower(a + b) == Lower(a) + Lower(b)
    decreases |a|
  {
    if a == [] {
      assert a + b == b;
    } else {
      assert (a + b)[0] == a[0];
      assert (a + b)[1..] == a[1..] + b;
      LowerAppend(a[1..], b);
    }
  }

  lemma {:induction false} LStripLower(s: string)
    ensures LStrip(Lower(s)) == Lower(LStrip(s))
    decreases |s|
  {
    if s != [] {
      SpaceLower(s[0]);
      LStripLower(s[1..]);
    }
  }

  lemma {:induction false} RStripLower(s: string)
    ensures RStrip(Lower(s)) == Lower(RStrip(s))
    decreases |s|
  {
    if s != [] {
      var init, c := s[..|s| - 1], s[|s| - 1];
      assert s == init + [c];
      LowerAppend(init, [c]);
      SpaceLower(c);
      RStripLower(init);
      assert Lower(s)[..|s| - 1] == Lower(init);
    }
  }

  /** Stripping and lower-casing commute. */
  lemma StripLower(s: string)
    ensures Strip(Lower(s)) == Lower(Strip(s))
  {
    assert LStrip(Lower(s)) == Lower(LStrip(s)) by { LStripLower(s); }
    assert RStrip(Lower(LStrip(s))) == Lower(RStrip(LStrip(s))) by { RStripLower(LStrip(s)); }
    StripIs(s);
    StripIs(Lower(s));
  }

  /** Lower-casing twice is lower-casing once. */
  lemma LowerTwice(s: string)
    ensures Lower(Lower(s)) == Lower(s)
  {
    var a, b := Lower(Lower(s)), Lower(s);
    forall i | 0 <= i < |a| ensures a[i] == b[i] {
      assert a[i] == LowerChar(b[i]);
    }
  }

  /** Python's `s.startswith(p)`. */
  predicate StartsWith(s: string, p: string) {
    |p| <= |s| && s[..|p|] == p
  }

  /** Python's `s.endswith(p)`. */
  predicate EndsWith(s: string, p: string) {
    |p| <= |s| && s[|s| - |p|..] == p
  }

  /** Python's `sub in s` on strings. */
  predicate Contains(s: string, sub: string) {
    exists i | 0 <= i <= |s| - |sub| :: InfixAt(sub, s, i)
  }
}
