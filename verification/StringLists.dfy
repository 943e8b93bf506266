/** The list helpers shared by the finalizer handling and the binding editor. */
module StringLists {

  /** `xs` without any occurrence of `x`, in the original order. */
  function Without(xs: seq<string>, x: string): seq<string> {
    if xs == [] then []
    else if xs[0] == x then Without(xs[1..], x)
    else [xs[0]] + Without(xs[1..], x)
  }

  /** Exactly `x` is gone. */
  lemma {:induction false} WithoutMembers(xs: seq<string>, x: string)
    ensures x !in Without(xs, x)
    ensures forall y :: y != x ==> (y in Without(xs, x) <==> y in xs)
  {
    if xs != [] {
      WithoutMembers(xs[1..], x);
      assert forall y :: y in xs <==> y == xs[0] || y in xs[1..];
    }
  }

  predicate NoDuplicates(xs: seq<string>) {
    forall i, j :: 0 <= i < j < |xs| ==> xs[i] != xs[j]
  }

  method ContainsString(slice: seq<string>, s: string) returns (found: bool)
    ensures found <==> s in slice
  {
    for i := 0 to |slice|
      invariant s !in slice[..i]
    {
      if slice[i] == s {
        return true;
      }
    }
    return false;
  }

  method RemoveString(slice: seq<string>, s: string) returns (result: seq<string>)
    ensures result == Without(slice, s)
  {
    result := [];
    for i := 0 to |slice|
      invariant result == Without(slice[..i], s)
    {
      WithoutAppend(slice[..i], [slice[i]], s);
      assert slice[..i + 1] == slice[..i] + [slice[i]];
      if slice[i] == s {
        continue;
      }
      result := result + [slice[i]];
    }
    assert slice[..|slice|] == slice;
  }

  lemma {:induction false} WithoutAppend(xs: seq<string>, ys: seq<string>, x: string)
    ensures Without(xs + ys, x) == Without(xs, x) + Without(ys, x)
  {
    if xs == [] {
      assert xs + ys == ys;
    } else {
      assert (xs + ys)[1..] == xs[1..] + ys;
      WithoutAppend(xs[1..], ys, x);
    }
  }

  lemma {:induction false} WithoutAbsent(xs: seq<string>, x: string)
    ensures x !in xs <==> Without(xs, x) == xs
  {
    if xs != [] {
      WithoutAbsent(xs[1..], x);
      WithoutShrinks(xs[1..], x);
      assert x in xs <==> x == xs[0] || x in xs[1..];
    }
  }

  lemma {:induction false} WithoutShrinks(xs: seq<string>, x: string)
    ensures |Without(xs, x)| <= |xs|
  {
    if xs != [] {
      WithoutShrinks(xs[1..], x);
    }
  }

  /** Appending a new element and removing it again restores the list; with an old one it cannot. */
  lemma AppendThenRemove(xs: seq<string>, x: string)
    ensures Without(xs + [x], x) == xs <==> x !in xs
  {
    WithoutAppend(xs, [x], x);
    WithoutAbsent(xs, x);
  }

  lemma RemoveTwice(xs: seq<string>, x: string)
    ensures Without(Without(xs, x), x) == Without(xs, x)
  {
    WithoutMembers(xs, x);
    WithoutAbsent(Without(xs, x), x);
  }

  /** Removal keeps the relative order and multiplicity of everything else. */
  lemma {:induction false} RemovalsCommute(xs: seq<string>, x: string, y: string)
    ensures Without(Without(xs, x), y) == Without(Without(xs, y), x)
  {
    if xs != [] {
      RemovalsCommute(xs[1..], x, y);
      WithoutAppend([xs[0]], Without(xs[1..], x), y);
      WithoutAppend([xs[0]], Without(xs[1..], y), x);
    }
  }

  lemma {:induction false} WithoutKeepsDistinct(xs: seq<string>, x: string)
    requires NoDuplicates(xs)
    ensures NoDuplicates(Without(xs, x))
  {
    if xs != [] {
      assert NoDuplicates(xs[1..]);
      WithoutKeepsDistinct(xs[1..], x);
      WithoutMembers(xs[1..], x);
      assert xs[0] !in xs[1..];
    }
  }
}
