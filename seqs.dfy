/**
  * Lists of lists: `b"".join(parts)` / `sum(pages_of_each, [])` as Flatten,
  * and the running lengths the PDF writer and the page segmenter rely on.
  */
module Seqs {

  /** `b"".join(parts)`. */
  function Flatten<T>(parts: seq<seq<T>>): seq<T> {
    if parts == [] then [] else Flatten(parts[..|parts| - 1]) + parts[|parts| - 1]
  }

  /** `sum(len(p) for p in parts)`. */
  function TotalLength<T>(parts: seq<seq<T>>): (n: nat)
    ensures n == |Flatten(parts)|
  {
    if parts == [] then 0 else TotalLength(parts[..|parts| - 1]) + |parts[|parts| - 1]|
  }

  lemma {:induction false} FlattenAppend<T>(a: seq<seq<T>>, b: seq<seq<T>>)
    ensures Flatten(a + b) == Flatten(a) + Flatten(b)
    decreases |b|
  {
    if b == [] {
      assert a + b == a;
    } else {
      var init := b[..|b| - 1];
      FlattenAppend(a, init);
      FlattenSnoc(a + init, b[|b| - 1]);
      FlattenSnoc(init, b[|b| - 1]);
      assert a + b == (a + init) + [b[|b| - 1]] by {
        assert b == init + [b[|b| - 1]];
        AppendAssoc(a, init, [b[|b| - 1]]);
      }
      AppendAssoc(Flatten(a), Flatten(init), b[|b| - 1]);
    }
  }

  /** The three pieces of `x + y + z` sit where they were put. */
  lemma Parts3<T>(x: seq<T>, y: seq<T>, z: seq<T>)
    ensures var s := x + y + z; s[..|x|] == x && s[|x|..|x| + |y|] == y && s[|x| + |y|..] == z
  {
  }

  /** The middle pieces of `x + y + z + w` sit where they were put. */
  lemma Parts4<T>(x: seq<T>, y: seq<T>, z: seq<T>, w: seq<T>)
    ensures var s := x + y + z + w; s[|x|..|x| + |y|] == y && s[|x| + |y|..|x| + |y| + |z|] == z
  {
  }

  /** A slice within the first piece of `a + b`. */
  lemma SliceLeft<T>(a: seq<T>, b: seq<T>, i: nat, j: nat)
    requires i <= j <= |a|
    ensures (a + b)[i..j] == a[i..j]
  {
  }

  /** The last n items of `x + y` are the last n of `y`. */
  lemma EndOf<T>(x: seq<T>, y: seq<T>, n: nat)
    requires n <= |y|
    ensures (x + y)[|x + y| - n..] == y[|y| - n..]
  {
  }

  /** Concatenation is associative. */
  lemma AppendAssoc<T>(x: seq<T>, y: seq<T>, z: seq<T>)
    ensures (x + y) + z == x + (y + z)
  {
  }

  /** Part j of a join sits right after the parts before it. */
  lemma FlattenPart<T>(ps: seq<seq<T>>, j: nat)
    requires j < |ps|
    ensures TotalLength(ps[..j]) + |ps[j]| <= |Flatten(ps)|
    ensures Flatten(ps)[TotalLength(ps[..j])..TotalLength(ps[..j]) + |ps[j]|] == ps[j]
  {
    assert ps == ps[..j + 1] + ps[j + 1..];
    FlattenAppend(ps[..j + 1], ps[j + 1..]);
    assert ps[..j + 1][..j] == ps[..j];
  }

  lemma FlattenTwoMore<T>(parts: seq<seq<T>>, x: seq<T>, t: seq<T>)
    ensures Flatten(parts + [x, t]) == Flatten(parts) + x + t
  {
    FlattenAppend(parts, [x, t]);
    assert [x][..0] == [];
    assert Flatten([x]) == x;
    assert [x, t][..1] == [x];
    assert Flatten([x, t]) == x + t;
  }

  lemma TotalLengthSnoc<T>(ps: seq<seq<T>>, k: nat)
    requires 1 <= k <= |ps|
    ensures TotalLength(ps[..k]) == TotalLength(ps[..k - 1]) + |ps[k - 1]|
  {
    assert ps[..k][..k - 1] == ps[..k - 1];
  }

  lemma {:induction false} TotalLengthPrefix<T>(ps: seq<seq<T>>, k: nat)
    requires k <= |ps|
    ensures TotalLength(ps[..k]) <= TotalLength(ps)
    decreases |ps| - k
  {
    if k < |ps| {
      TotalLengthPrefix(ps, k + 1);
      TotalLengthSnoc(ps, k + 1);
    } else {
      assert ps[..k] == ps;
    }
  }

  lemma TakeSnoc<T>(s: seq<T>, k: nat)
    requires 1 <= k <= |s|
    ensures s[..k] == s[..k - 1] + [s[k - 1]]
  {
  }

  /** Joining one more part appends it. */
  lemma FlattenSnoc<T>(parts: seq<seq<T>>, x: seq<T>)
    ensures Flatten(parts + [x]) == Flatten(parts) + x
  {
    assert (parts + [x])[..|parts|] == parts;
  }

  /** Joining the first n parts is joining the first n - 1 and then part n - 1. */
  lemma FlattenTake<T>(parts: seq<seq<T>>, n: nat)
    requires 1 <= n <= |parts|
    ensures Flatten(parts[..n]) == Flatten(parts[..n - 1]) + parts[n - 1]
  {
    assert parts[..n][..n - 1] == parts[..n - 1];
  }
}
