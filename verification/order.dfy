/** Python's ordering of `str` values (code point by code point, a proper
    prefix first) and `sorted(set(xs))`. */
module Order {

  predicate StrLt(a: string, b: string)
    decreases |a|
  {
    if b == [] then false
    else if a == [] then true
    else if a[0] != b[0] then a[0] < b[0]
    else StrLt(a[1..], b[1..])
  }

  lemma {:induction false} StrLtIrreflexive(a: string)
    ensures !StrLt(a, a)
    decreases |a|
  {
    if a != [] {
      StrLtIrreflexive(a[1..]);
    }
  }

  lemma {:induction false} StrLtTransitive(a: string, b: string, c: string)
    requires StrLt(a, b) && StrLt(b, c)
    ensures StrLt(a, c)
    decreases |a|
  {
    if a != [] && a[0] == b[0] && b[0] == c[0] {
      StrLtTransitive(a[1..], b[1..], c[1..]);
    }
  }

  lemma {:induction false} StrLtTotal(a: string, b: string)
    requires a != b
    ensures StrLt(a, b) || StrLt(b, a)
    decreases |a|
  {
    if a != [] && b != [] && a[0] == b[0] {
      assert a == [a[0]] + a[1..] && b == [b[0]] + b[1..];
      StrLtTotal(a[1..], b[1..]);
    }
  }

  lemma {:induction false} StrLtAsymmetric(a: string, b: string)
    requires StrLt(a, b)
    ensures !StrLt(b, a)
  {
    if StrLt(b, a) {
      StrLtTransitive(a, b, a);
      StrLtIrreflexive(a);
    }
  }

  /** Strictly increasing, hence without duplicates. */
  predicate StrictlySorted(xs: seq<string>) {
    forall i, j :: 0 <= i < j < |xs| ==> StrLt(xs[i], xs[j])
  }

  lemma SortedDistinct(xs: seq<string>)
    requires StrictlySorted(xs)
    ensures forall i, j :: 0 <= i < j < |xs| ==> xs[i] != xs[j]
  {
    forall i, j | 0 <= i < j < |xs| ensures xs[i] != xs[j] {
      StrLtIrreflexive(xs[i]);
    }
  }

  /** Insert `x` into a strictly sorted list unless it is already there. */
  function InsertUnique(x: string, xs: seq<string>): (r: seq<string>)
    requires StrictlySorted(xs)
    ensures StrictlySorted(r)
    ensures forall s :: s in r <==> s in xs || s == x
  {
    if xs == [] then [x]
    else if x == xs[0] then xs
    else if StrLt(x, xs[0]) then
      assert forall j :: 0 <= j < |xs| ==> StrLt(x, xs[j]) by {
        forall j | 0 <= j < |xs| ensures StrLt(x, xs[j]) {
          if j > 0 { StrLtTransitive(x, xs[0], xs[j]); }
        }
      }
      [x] + xs
    else
      StrLtTotal(x, xs[0]);
      var tail := InsertUnique(x, xs[1..]);
      assert forall j :: 0 <= j < |tail| ==> StrLt(xs[0], tail[j]) by {
        forall j | 0 <= j < |tail| ensures StrLt(xs[0], tail[j]) {
          assert tail[j] in tail;
          if tail[j] != x {
            var k :| 0 <= k < |xs[1..]| && xs[1..][k] == tail[j];
            assert xs[k + 1] == tail[j];
          }
        }
      }
      assert forall s :: s in xs <==> s == xs[0] || s in xs[1..] by {
        assert xs == [xs[0]] + xs[1..];
      }
      [xs[0]] + tail
  }

  /** Python's `sorted(set(xs))`: strictly increasing, with exactly the elements of `xs`. */
  function SortedUnique(xs: seq<string>): (r: seq<string>)
    ensures StrictlySorted(r)
    ensures forall s :: s in r <==> s in xs
  {
    if xs == [] then []
    else
      var r := InsertUnique(xs[|xs| - 1], SortedUnique(xs[..|xs| - 1]));
      assert forall s :: s in xs <==> s in xs[..|xs| - 1] || s == xs[|xs| - 1] by {
        assert xs == xs[..|xs| - 1] + [xs[|xs| - 1]];
      }
      r
  }
}
