/** Shared datatypes, the order of strings, and hexadecimal digits. */
module Basics {
  datatype Option<+T> = None | Some(value: T)

  /** Order by code point, a prefix first. */
  predicate Precedes(a: string, b: string) {
    a == [] || (b != [] && (a[0] < b[0] || (a[0] == b[0] && Precedes(a[1..], b[1..]))))
  }

  predicate InOrder(names: seq<string>) {
    forall i :: 0 <= i < |names| - 1 ==> Precedes(names[i], names[i + 1])
  }

  function HexDigit(n: int): char
    requires 0 <= n < 16
  {
    if n < 10 then ('0' as int + n) as char else ('a' as int + n - 10) as char
  }

  /** The strings agree up to `k`, and there the first is smaller. */
  predicate SmallerAt(a: string, b: string, k: nat) {
    k < |a| && k < |b| && a[..k] == b[..k] && a[k] < b[k]
  }

  lemma SmallerFurtherOn(c: char, a: string, b: string, k: nat)
    ensures SmallerAt([c] + a, [c] + b, k + 1) <==> SmallerAt(a, b, k)
  {
    if k < |a| && k < |b| {
      assert ([c] + a)[..k + 1] == [c] + a[..k] && ([c] + b)[..k + 1] == [c] + b[..k];
      assert ([c] + a[..k])[1..] == a[..k] && ([c] + b[..k])[1..] == b[..k];
    }
  }

  lemma PrefixFurtherOn(c: char, a: string, b: string)
    ensures [c] + a <= [c] + b <==> a <= b
  {
    if |a| <= |b| {
      assert ([c] + b)[..|a| + 1] == [c] + b[..|a|];
      assert ([c] + a)[1..] == a && ([c] + b[..|a|])[1..] == b[..|a|];
    }
  }

  /** The order is lexicographic: a prefix, or smaller at the first difference. */
  lemma {:induction false} PrecedesExactlyWhen(a: string, b: string)
    ensures Precedes(a, b) <==> a <= b || exists k: nat :: SmallerAt(a, b, k)
  {
    hide SmallerAt;
    if a == [] || b == [] {
      forall k: nat ensures !SmallerAt(a, b, k) { EmptyIsNotSmaller(a, b, k); }
    } else if a[0] == b[0] {
      var c, a1, b1 := a[0], a[1..], b[1..];
      assert a == [c] + a1 && b == [c] + b1;
      PrecedesExactlyWhen(a1, b1);
      PrefixFurtherOn(c, a1, b1);
      forall k: nat ensures SmallerAt(a, b, k + 1) <==> SmallerAt(a1, b1, k) { SmallerFurtherOn(c, a1, b1, k); }
      HeadsTell(a, b);
      if k: nat :| SmallerAt(a, b, k) { assert SmallerAt(a1, b1, k - 1); }
      if k: nat :| SmallerAt(a1, b1, k) { assert SmallerAt(a, b, k + 1); }
    } else {
      HeadsTell(a, b);
    }
  }

  lemma EmptyIsNotSmaller(a: string, b: string, k: nat)
    requires a == [] || b == []
    ensures !SmallerAt(a, b, k)
  {
  }

  lemma HeadsTell(a: string, b: string)
    requires a != [] && b != []
    ensures SmallerAt(a, b, 0) <==> a[0] < b[0]
    ensures a[0] != b[0] ==> !(a <= b) && forall k: nat :: SmallerAt(a, b, k) ==> k == 0
  {
    forall k: nat | SmallerAt(a, b, k) && k > 0 ensures a[0] == b[0] { assert a[..k][0] == b[..k][0]; }
  }

  lemma {:induction false} PrecedesTransitively(a: string, b: string, c: string)
    requires Precedes(a, b) && Precedes(b, c)
    ensures Precedes(a, c)
  {
    if a != [] && a[0] == b[0] == c[0] { PrecedesTransitively(a[1..], b[1..], c[1..]); }
  }

  /** Neighbours in order means all in order. */
  lemma {:induction false} InOrderMeans(names: seq<string>, i: nat, j: nat)
    requires InOrder(names) && i < j < |names|
    ensures Precedes(names[i], names[j])
  {
    if i < j - 1 {
      InOrderMeans(names, i, j - 1);
      PrecedesTransitively(names[i], names[j - 1], names[j]);
    }
  }
}
