/** Splitting and joining strings the way Python's `str.split(sep)`,
    `sep.join(parts)` and `str.splitlines()` do. */
module Split {

  /** Index of the first occurrence of `c` in `s`. */
  function IndexOf(s: string, c: char): (i: nat)
    requires c in s
    ensures i < |s| && s[i] == c && c !in s[..i]
  {
    if s[0] == c then 0 else 1 + IndexOf(s[1..], c)
  }

  /** Python's `s.split(c)` for a one-character separator: never empty, and no
      piece contains the separator. */
  function SplitOn(s: string, c: char): (parts: seq<string>)
    ensures |parts| >= 1
    ensures forall k :: 0 <= k < |parts| ==> c !in parts[k]
    decreases |s|
  {
    if c !in s then [s]
    else
      var i := IndexOf(s, c);
      [s[..i]] + SplitOn(s[i + 1..], c)
  }

  /** Python's `sep.join(parts)`. */
  function Join(parts: seq<string>, sep: string): string {
    if |parts| == 0 then ""
    else if |parts| == 1 then parts[0]
    else parts[0] + sep + Join(parts[1..], sep)
  }

  /** Joining the pieces of a split restores the string. */
  lemma {:induction false} JoinSplit(s: string, c: char)
    ensures Join(SplitOn(s, c), [c]) == s
    decreases |s|
  {
    if c in s {
      var i := IndexOf(s, c);
      var rest := SplitOn(s[i + 1..], c);
      assert SplitOn(s, c) == [s[..i]] + rest;
      assert (([s[..i]] + rest)[1..]) == rest;
      JoinSplit(s[i + 1..], c);
      assert Join(SplitOn(s, c), [c]) == s[..i] + [c] + Join(rest, [c]);
      assert s == s[..i] + [c] + s[i + 1..];
    }
  }

  /** Splitting a join restores the pieces, when no piece holds the separator. */
  lemma {:induction false} SplitJoin(parts: seq<string>, c: char)
    requires |parts| >= 1
    requires forall k :: 0 <= k < |parts| ==> c !in parts[k]
    ensures SplitOn(Join(parts, [c]), c) == parts
    decreases |parts|
  {
    if |parts| > 1 {
      var s := Join(parts, [c]);
      var rest := Join(parts[1..], [c]);
      assert s == parts[0] + [c] + rest;
      assert s[|parts[0]|] == c;
      assert s[..|parts[0]|] == parts[0];
      assert IndexOf(s, c) == |parts[0]|;
      assert s[|parts[0]| + 1..] == rest;
      SplitJoin(parts[1..], c);
    }
  }

  /** The characters at which Python's `str.splitlines()` breaks a line. */
  predicate IsLineBreak(c: char) {
    || c == '\n' || c == '\r' || c == '\U{0B}' || c == '\U{0C}'
    || c == '\U{1C}' || c == '\U{1D}' || c == '\U{1E}' || c == '\U{85}'
    || c == '\U{2028}' || c == '\U{2029}'
  }

  predicate NoBreak(s: string) {
    forall i :: 0 <= i < |s| ==> !IsLineBreak(s[i])
  }

  /** Index of the first line break in `s`, or `|s|` when there is none. */
  function BreakIndex(s: string): (i: nat)
    ensures i <= |s|
    ensures NoBreak(s[..i])
    ensures i < |s| ==> IsLineBreak(s[i])
  {
    if s == [] || IsLineBreak(s[0]) then 0 else 1 + BreakIndex(s[1..])
  }

  /** Where the line after the first break starts: "\r\n" is one break. */
  function NextStart(s: string): (n: nat)
    requires BreakIndex(s) < |s|
    ensures BreakIndex(s) < n <= |s|
  {
    var i := BreakIndex(s);
    if s[i] == '\r' && i + 1 < |s| && s[i + 1] == '\n' then i + 2 else i + 1
  }

  /** Python's `s.splitlines()`: "\r\n" counts as one break, a final break
      does not start an extra empty line, and "" has no lines. */
  function SplitLines(s: string): (lines: seq<string>)
    ensures s == [] <==> lines == []
    decreases |s|
  {
    if s == [] then []
    else if BreakIndex(s) == |s| then [s]
    else [s[..BreakIndex(s)]] + SplitLines(s[NextStart(s)..])
  }

  /** No line of `s.splitlines()` holds a break. */
  lemma {:induction false} SplitLinesNoBreak(s: string)
    ensures forall k :: 0 <= k < |SplitLines(s)| ==> NoBreak(SplitLines(s)[k])
    decreases |s|
  {
    if s != [] && BreakIndex(s) < |s| {
      SplitLinesNoBreak(s[NextStart(s)..]);
      var rest := SplitLines(s[NextStart(s)..]);
      assert SplitLines(s) == [s[..BreakIndex(s)]] + rest;
      forall k | 1 <= k < |SplitLines(s)| ensures NoBreak(SplitLines(s)[k]) {
        assert SplitLines(s)[k] == rest[k - 1];
      }
    }
  }

  /** Each line followed by "\n": the text of a file whose lines are `lines`. */
  function Terminated(lines: seq<string>): string {
    if lines == [] then "" else lines[0] + "\n" + Terminated(lines[1..])
  }

  /** A text that ends with "\n" splits independently of what follows it. */
  lemma {:induction false} SplitLinesAppend(a: string, b: string)
    requires a == [] || a[|a| - 1] == '\n'
    ensures SplitLines(a + b) == SplitLines(a) + SplitLines(b)
    decreases |a|
  {
    if a == [] {
      assert a + b == b;
    } else {
      BreakBeforeEnd(a);
      var i := BreakIndex(a);
      var t := a[NextStart(a)..];
      assert t == [] || t[|t| - 1] == '\n' by { AppendStep(a, b); }
      assert SplitLines(t + b) == SplitLines(t) + SplitLines(b) by { SplitLinesAppend(t, b); }
      assert SplitLines(a + b) == [a[..i]] + SplitLines(t + b) by { AppendStep(a, b); }
      assert SplitLines(a) == [a[..i]] + SplitLines(t) by { AppendStep(a, b); }
      ConsAssoc(a[..i], SplitLines(t), SplitLines(b));
    }
  }

  lemma ConsAssoc<T>(x: T, xs: seq<T>, ys: seq<T>)
    ensures [x] + (xs + ys) == ([x] + xs) + ys
  {
  }

  /** The first line of `a + b` is the first line of `a` when `a` ends in "\n". */
  lemma AppendStep(a: string, b: string)
    requires a != [] && a[|a| - 1] == '\n'
    ensures BreakIndex(a) < |a|
    ensures SplitLines(a) == [a[..BreakIndex(a)]] + SplitLines(a[NextStart(a)..])
    ensures SplitLines(a + b) == [a[..BreakIndex(a)]] + SplitLines(a[NextStart(a)..] + b)
    ensures var t := a[NextStart(a)..]; t == [] || t[|t| - 1] == '\n'
  {
    BreakBeforeEnd(a);
    var i := BreakIndex(a);
    var n := NextStart(a);
    assert BreakIndex(a + b) == i && NextStart(a + b) == n by {
      BreakIndexPrefix(a, b);
      NextStartPrefix(a, b);
    }
    assert (a + b)[..i] == a[..i];
    assert (a + b)[n..] == a[n..] + b;
    SplitLinesStep(a);
    SplitLinesStep(a + b);
    SuffixEndsInNewline(a, n);
  }

  lemma SuffixEndsInNewline(a: string, n: nat)
    requires a != [] && a[|a| - 1] == '\n' && n <= |a|
    ensures var t := a[n..]; t == [] || t[|t| - 1] == '\n'
  {
    if n < |a| {
      assert a[n..][|a| - n - 1] == a[|a| - 1];
    }
  }

  lemma {:induction false} BreakBeforeEnd(a: string)
    requires a != [] && a[|a| - 1] == '\n'
    ensures BreakIndex(a) < |a|
    decreases |a|
  {
    if !IsLineBreak(a[0]) {
      BreakBeforeEnd(a[1..]);
    }
  }

  lemma NextStartPrefix(a: string, b: string)
    requires a != [] && a[|a| - 1] == '\n'
    requires BreakIndex(a) < |a| && BreakIndex(a + b) == BreakIndex(a)
    ensures NextStart(a + b) == NextStart(a)
  {
    var i := BreakIndex(a);
    assert (a + b)[i] == a[i];
    if a[i] == '\r' {
      assert i + 1 < |a|;
      assert (a + b)[i + 1] == a[i + 1];
    }
  }

  lemma {:induction false} BreakIndexPrefix(a: string, b: string)
    requires BreakIndex(a) < |a|
    ensures BreakIndex(a + b) == BreakIndex(a)
    decreases |a|
  {
    if !IsLineBreak(a[0]) {
      assert (a + b)[1..] == a[1..] + b;
      BreakIndexPrefix(a[1..], b);
    }
  }

  /** Splitting a text of terminated break-free lines gives back those lines. */
  lemma {:induction false} SplitTerminated(lines: seq<string>)
    requires forall k :: 0 <= k < |lines| ==> NoBreak(lines[k])
    ensures SplitLines(Terminated(lines)) == lines
    decreases |lines|
  {
    if lines != [] {
      var head := lines[0] + "\n";
      var tail := Terminated(lines[1..]);
      assert SplitLines(head) == [lines[0]] by { LineSplit(lines[0]); }
      assert Terminated(lines) == head + tail;
      assert SplitLines(head + tail) == SplitLines(head) + SplitLines(tail) by { SplitLinesAppend(head, tail); }
      assert SplitLines(tail) == lines[1..] by { SplitTerminated(lines[1..]); }
      HeadTail(lines);
    }
  }

  lemma HeadTail<T>(xs: seq<T>)
    requires xs != []
    ensures [xs[0]] + xs[1..] == xs
  {
  }

  lemma {:induction false} BreakIndexOfLine(line: string)
    requires NoBreak(line)
    ensures BreakIndex(line + "\n") == |line|
    decreases |line|
  {
    if line != [] {
      assert (line + "\n")[1..] == line[1..] + "\n";
      BreakIndexOfLine(line[1..]);
    }
  }

  /** Joining with "\n" and adding a final "\n" terminates every line. */
  lemma {:induction false} JoinTerminated(lines: seq<string>)
    requires lines != []
    ensures Join(lines, "\n") + "\n" == Terminated(lines)
    decreases |lines|
  {
    if |lines| > 1 {
      JoinTerminated(lines[1..]);
    }
  }

  /** A text without breaks is one line, with or without a final "\n". */
  lemma NewlineNoBreak(s: string)
    requires s != [] && NoBreak(s)
    ensures SplitLines(s) == [s]
    ensures SplitLines(s + "\n") == [s]
  {
    assert s[..|s|] == s;
    LineSplit(s);
  }

  /** A break-free line followed by "\n" is that one line. */
  lemma LineSplit(line: string)
    requires NoBreak(line)
    ensures SplitLines(line + "\n") == [line]
  {
    var t := line + "\n";
    BreakIndexOfLine(line);
    assert NextStart(t) == |t|;
    SplitLinesStep(t);
    assert t[..|line|] == line;
    assert t[|t|..] == [];
  }

  /** One step of `SplitLines` on a text with a break. */
  lemma SplitLinesStep(s: string)
    requires BreakIndex(s) < |s|
    ensures SplitLines(s) == [s[..BreakIndex(s)]] + SplitLines(s[NextStart(s)..])
  {
  }

  /** A text whose only break is its last character is one line. */
  lemma LastBreakLines(s: string)
    requires s != [] && BreakIndex(s) == |s| - 1
    ensures SplitLines(s) == [s[..|s| - 1]]
  {
    assert NextStart(s) == |s|;
    SplitLinesStep(s);
    assert s[|s|..] == [];
  }

  /** A final "\r" and an added "\n" form one break. */
  lemma LastReturnNewline(s: string)
    requires s != [] && BreakIndex(s) == |s| - 1 && s[|s| - 1] == '\r'
    ensures SplitLines(s + "\n") == [s[..|s| - 1]]
  {
    var t := s + "\n";
    var i := |s| - 1;
    BreakIndexPrefix(s, "\n");
    assert t[i] == '\r' && t[i + 1] == '\n';
    assert NextStart(t) == |t|;
    SplitLinesStep(t);
    assert t[..i] == s[..i];
    assert t[|t|..] == [];
  }

  /** Any other final break followed by an added "\n" ends an empty line. */
  lemma LastOtherNewline(s: string)
    requires s != [] && BreakIndex(s) == |s| - 1 && s[|s| - 1] != '\r' && s[|s| - 1] != '\n'
    ensures SplitLines(s + "\n") == [s[..|s| - 1], ""]
  {
    var t := s + "\n";
    var i := |s| - 1;
    BreakIndexPrefix(s, "\n");
    assert t[i] == s[i];
    assert NextStart(t) == |s|;
    SplitLinesStep(t);
    assert t[..i] == s[..i];
    assert t[|s|..] == "\n";
    assert SplitLines("\n") == [""];
  }

  /** A text whose only break is its last character. */
  lemma NewlineLastBreak(s: string)
    requires s != [] && BreakIndex(s) == |s| - 1 && s[|s| - 1] != '\n'
    ensures SplitLines(s) == [s[..|s| - 1]]
    ensures SplitLines(s + "\n") == [s[..|s| - 1]] + (if s[|s| - 1] != '\r' then [""] else [])
  {
    LastBreakLines(s);
    if s[|s| - 1] == '\r' {
      LastReturnNewline(s);
    } else {
      LastOtherNewline(s);
    }
  }

  /** Adding "\n" to a text that does not end in "\n" keeps its lines, and
      adds one empty line only when the text ends in a break other than "\r"
      (a final "\r" and the new "\n" form one "\r\n" break). */
  lemma {:induction false} SplitLinesNewline(s: string)
    requires s != [] && s[|s| - 1] != '\n'
    ensures SplitLines(s + "\n")
         == SplitLines(s) + (if IsLineBreak(s[|s| - 1]) && s[|s| - 1] != '\r' then [""] else [])
    decreases |s|
  {
    var t := s + "\n";
    var i := BreakIndex(s);
    if i == |s| {
      assert s[..i] == s;
      NewlineNoBreak(s);
    } else if i == |s| - 1 {
      NewlineLastBreak(s);
    } else {
      NewlineStep(s);
      var r := s[NextStart(s)..];
      var extra := if IsLineBreak(s[|s| - 1]) && s[|s| - 1] != '\r' then [""] else [];
      assert SplitLines(r + "\n") == SplitLines(r) + extra by { SplitLinesNewline(r); }
      ConsAssoc(s[..i], SplitLines(r), extra);
    }
  }

  /** A break before the last character: the first line is the same with or
      without the added "\n", and the rest still ends in the same character. */
  lemma NewlineStep(s: string)
    requires s != [] && s[|s| - 1] != '\n' && BreakIndex(s) < |s| - 1
    ensures NextStart(s) < |s|
    ensures s[NextStart(s)..][|s| - NextStart(s) - 1] == s[|s| - 1]
    ensures SplitLines(s) == [s[..BreakIndex(s)]] + SplitLines(s[NextStart(s)..])
    ensures SplitLines(s + "\n") == [s[..BreakIndex(s)]] + SplitLines(s[NextStart(s)..] + "\n")
  {
    var t := s + "\n";
    var i := BreakIndex(s);
    var n := NextStart(s);
    assert n < |s| by {
      if s[i] == '\r' && s[i + 1] == '\n' {
        assert i + 1 != |s| - 1;
      }
    }
    assert BreakIndex(t) == i by { BreakIndexPrefix(s, "\n"); }
    assert NextStart(t) == n by {
      assert t[i] == s[i] && t[i + 1] == s[i + 1];
      NextStartSame(s, t);
    }
    assert SplitLines(s) == [s[..i]] + SplitLines(s[n..]) by { SplitLinesStep(s); }
    assert SplitLines(t) == [s[..i]] + SplitLines(s[n..] + "\n") by {
      SplitLinesStep(t);
      PrefixOfAppend(s, "\n", i);
      SuffixOfAppend(s, "\n", n);
    }
  }

  /** Two texts that agree on the first break and the character after it
      resume at the same place. */
  lemma NextStartSame(a: string, b: string)
    requires BreakIndex(a) < |a| - 1 && BreakIndex(b) == BreakIndex(a) && |a| <= |b|
    requires a[BreakIndex(a)] == b[BreakIndex(a)] && a[BreakIndex(a) + 1] == b[BreakIndex(a) + 1]
    ensures NextStart(a) == NextStart(b)
  {
  }

  lemma PrefixOfAppend(a: string, b: string, n: nat)
    requires n <= |a|
    ensures (a + b)[..n] == a[..n]
  {
  }

  lemma SuffixOfAppend(a: string, b: string, n: nat)
    requires n <= |a|
    ensures (a + b)[n..] == a[n..] + b
  {
  }
}
