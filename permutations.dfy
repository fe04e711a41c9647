/**
 * All orderings of a list, in the order Python's itertools.permutations
 * produces them: lexicographic in the positions of the input, so the first
 * element is chosen from the input left to right and the rest are the
 * orderings of what remains.
 */
module Orderings {

  /** `p` holds the same elements as `xs`, as often. */
  predicate IsPermutationOf<T(==)>(p: seq<T>, xs: seq<T>)
  {
    multiset(p) == multiset(xs)
  }

  /** `xs` without its element at position `i`. */
  function Without<T>(xs: seq<T>, i: nat): (r: seq<T>)
    requires i < |xs|
    ensures |r| == |xs| - 1
  {
    xs[..i] + xs[i + 1..]
  }

  /** `x` put in front of each of `ps`. */
  function Prepend<T>(x: T, ps: seq<seq<T>>): (r: seq<seq<T>>)
    ensures |r| == |ps|
    ensures forall k :: 0 <= k < |ps| ==> r[k] == [x] + ps[k]
  {
    if ps == [] then [] else [[x] + ps[0]] + Prepend(x, ps[1..])
  }

  /** Every ordering of `xs`, in itertools.permutations order. */
  function Permutations<T>(xs: seq<T>): seq<seq<T>>
    decreases |xs|, |xs| + 1
  {
    if xs == [] then [[]] else Choose(xs, 0)
  }

  /** The orderings of `xs` whose first element is taken from position `i` or later. */
  function Choose<T>(xs: seq<T>, i: nat): seq<seq<T>>
    requires i <= |xs|
    decreases |xs|, |xs| - i
  {
    if i == |xs| then [] else Prepend(xs[i], Permutations(Without(xs, i))) + Choose(xs, i + 1)
  }

  function Factorial(n: nat): nat
  {
    if n == 0 then 1 else n * Factorial(n - 1)
  }

  lemma WithoutMultiset<T>(xs: seq<T>, i: nat)
    requires i < |xs|
    ensures multiset(xs) == multiset(Without(xs, i)) + multiset{xs[i]}
  {
    assert xs == xs[..i] + [xs[i]] + xs[i + 1..];
  }

  /** There are n! orderings of n elements. */
  lemma {:induction false} PermutationsCount<T>(xs: seq<T>)
    ensures |Permutations(xs)| == Factorial(|xs|)
    decreases |xs|, 1
  {
    if xs != [] {
      ChooseCount(xs, 0);
    }
  }

  lemma {:induction false} ChooseCount<T>(xs: seq<T>, i: nat)
    requires 0 < |xs| && i <= |xs|
    ensures |Choose(xs, i)| == (|xs| - i) * Factorial(|xs| - 1)
    decreases |xs|, 0, |xs| - i
  {
    if i < |xs| {
      var f := Factorial(|xs| - 1);
      PermutationsCount(Without(xs, i));
      ChooseCount(xs, i + 1);
      assert (|xs| - i) * f == f + (|xs| - (i + 1)) * f;
    }
  }

  /** Every listed ordering is a rearrangement of the input. */
  lemma {:induction false} PermutationsSound<T>(xs: seq<T>)
    ensures forall k :: 0 <= k < |Permutations(xs)| ==> IsPermutationOf(Permutations(xs)[k], xs)
    decreases |xs|, 1
  {
    if xs != [] {
      ChooseSound(xs, 0);
    }
  }

  lemma {:induction false} ChooseSound<T>(xs: seq<T>, i: nat)
    requires i <= |xs|
    ensures forall k :: 0 <= k < |Choose(xs, i)| ==> IsPermutationOf(Choose(xs, i)[k], xs)
    decreases |xs|, 0, |xs| - i
  {
    if i < |xs| {
      var rest := Without(xs, i);
      var front := Prepend(xs[i], Permutations(rest));
      PermutationsSound(rest);
      WithoutMultiset(xs, i);
      ChooseSound(xs, i + 1);
      forall k | 0 <= k < |front| ensures IsPermutationOf(front[k], xs) {
        assert multiset(front[k]) == multiset{xs[i]} + multiset(Permutations(rest)[k]);
      }
    }
  }

  /** Every rearrangement of the input is listed. */
  lemma {:induction false} PermutationsComplete<T>(xs: seq<T>, p: seq<T>)
    requires IsPermutationOf(p, xs)
    ensures p in Permutations(xs)
    decreases |xs|, 1
  {
    if xs == [] {
      assert p == [];
    } else {
      assert p[0] in multiset(xs);
      var i :| 0 <= i < |xs| && xs[i] == p[0];
      ChooseComplete(xs, 0, i, p);
    }
  }

  lemma {:induction false} ChooseComplete<T>(xs: seq<T>, from: nat, i: nat, p: seq<T>)
    requires from <= i < |xs| && p != [] && xs[i] == p[0] && IsPermutationOf(p, xs)
    ensures p in Choose(xs, from)
    decreases |xs|, 0, |xs| - from
  {
    if from < i {
      ChooseComplete(xs, from + 1, i, p);
    } else {
      var rest := Without(xs, i);
      TailIsPermutationOfRest(xs, i, p);
      PermutationsComplete(rest, p[1..]);
      var k :| 0 <= k < |Permutations(rest)| && Permutations(rest)[k] == p[1..];
      assert Prepend(xs[i], Permutations(rest))[k] == p;
    }
  }

  /** Removing the chosen first element from both sides keeps them rearrangements of each other. */
  lemma TailIsPermutationOfRest<T>(xs: seq<T>, i: nat, p: seq<T>)
    requires i < |xs| && p != [] && xs[i] == p[0] && IsPermutationOf(p, xs)
    ensures IsPermutationOf(p[1..], Without(xs, i))
  {
    WithoutMultiset(xs, i);
    assert p == [p[0]] + p[1..];
    assert multiset(p) == multiset{p[0]} + multiset(p[1..]);
    calc {
      multiset(p[1..]);
      multiset(p) - multiset{p[0]};
      multiset(xs) - multiset{xs[i]};
      multiset(Without(xs, i));
    }
  }

  /** The first ordering listed is the input itself. */
  lemma {:induction false} PermutationsStartWithInput<T>(xs: seq<T>)
    ensures |Permutations(xs)| > 0 && Permutations(xs)[0] == xs
  {
    if xs != [] {
      var rest := Without(xs, 0);
      assert rest == xs[1..];
      PermutationsStartWithInput(rest);
      assert Choose(xs, 0)[0] == [xs[0]] + rest;
    }
  }

  /**
   * The listing comes in blocks of (n-1)! orderings, one block per input
   * position taken left to right: the entries of block `b` start with `xs[b]`.
   */
  lemma PermutationsInBlocks<T>(xs: seq<T>, b: nat, m: nat)
    requires b < |xs| && m < |Permutations(xs)|
    requires b * Factorial(|xs| - 1) <= m < (b + 1) * Factorial(|xs| - 1)
    ensures Permutations(xs)[m] != [] && Permutations(xs)[m][0] == xs[b]
  {
    ChooseInBlocks(xs, 0, b, m);
  }

  lemma {:induction false} ChooseInBlocks<T>(xs: seq<T>, i: nat, b: nat, m: nat)
    requires i <= b < |xs| && m < |Choose(xs, i)|
    requires (b - i) * Factorial(|xs| - 1) <= m < (b - i + 1) * Factorial(|xs| - 1)
    ensures Choose(xs, i)[m] != [] && Choose(xs, i)[m][0] == xs[b]
    decreases |xs| - i
  {
    var f := Factorial(|xs| - 1);
    PermutationsCount(Without(xs, i));
    var front := Prepend(xs[i], Permutations(Without(xs, i)));
    assert |front| == f;
    assert Choose(xs, i) == front + Choose(xs, i + 1);
    BlockShift(b - i, f, m);
    if b == i {
      assert Choose(xs, i)[m] == [xs[i]] + Permutations(Without(xs, i))[m];
    } else {
      assert Choose(xs, i)[m] == Choose(xs, i + 1)[m - f];
      ChooseInBlocks(xs, i + 1, b, m - f);
    }
  }

  /** Position `m` in block `k` of size `f` is position `m - f` in block `k - 1`. */
  lemma BlockShift(k: nat, f: nat, m: nat)
    requires k * f <= m < (k + 1) * f
    ensures k == 0 ==> m < f
    ensures k > 0 ==> f <= m && (k - 1) * f <= m - f < k * f
  {
    if k > 0 {
      assert k * f == f + (k - 1) * f;
      assert (k + 1) * f == f + k * f;
    }
  }

  lemma PrependTwo<T>(x: T, p: seq<T>, q: seq<T>)
    ensures Prepend(x, [p, q]) == [[x] + p, [x] + q]
  {
    assert [p, q][1..] == [q];
  }

  lemma PrependOne<T>(x: T, p: seq<T>)
    ensures Prepend(x, [p]) == [[x] + p]
  {
    assert [p][1..] == [];
  }

  lemma PermutationsOfOne<T>(a: T)
    ensures Permutations([a]) == [[a]]
  {
    assert Without([a], 0) == [];
    PrependOne(a, []);
    assert [a] + [] == [a];
    assert Choose([a], 0) == Prepend(a, [[]]) + Choose([a], 1);
  }

  lemma PermutationsOfTwo<T>(a: T, b: T)
    ensures Permutations([a, b]) == [[a, b], [b, a]]
  {
    assert Without([a, b], 0) == [b];
    assert Without([a, b], 1) == [a];
    PermutationsOfOne(a);
    PermutationsOfOne(b);
    PrependOne(a, [b]);
    PrependOne(b, [a]);
    assert [a] + [b] == [a, b] && [b] + [a] == [b, a];
    assert Choose([a, b], 1) == Prepend(b, [[a]]) + Choose([a, b], 2);
    assert Choose([a, b], 0) == Prepend(a, [[b]]) + Choose([a, b], 1);
  }

  lemma PermutationsOfThree<T>(a: T, b: T, c: T)
    ensures Permutations([a, b, c]) == [[a, b, c], [a, c, b], [b, a, c], [b, c, a], [c, a, b], [c, b, a]]
  {
    var xs := [a, b, c];
    assert Without(xs, 0) == [b, c];
    assert Without(xs, 1) == [a, c];
    assert Without(xs, 2) == [a, b];
    PermutationsOfTwo(b, c);
    PermutationsOfTwo(a, c);
    PermutationsOfTwo(a, b);
    PrependTwo(a, [b, c], [c, b]);
    PrependTwo(b, [a, c], [c, a]);
    PrependTwo(c, [a, b], [b, a]);
    assert [a] + [b, c] == [a, b, c] && [a] + [c, b] == [a, c, b];
    assert [b] + [a, c] == [b, a, c] && [b] + [c, a] == [b, c, a];
    assert [c] + [a, b] == [c, a, b] && [c] + [b, a] == [c, b, a];
    assert Choose(xs, 2) == [[c, a, b], [c, b, a]];
    assert Choose(xs, 1) == [[b, a, c], [b, c, a]] + Choose(xs, 2);
  }

  /** The six orderings of four elements that start with `x`, in itertools.permutations order. */
  function FromFirst<T>(x: T, a: T, b: T, c: T): (r: seq<seq<T>>)
    ensures |r| == 6 && forall k :: 0 <= k < 6 ==> |r[k]| == 4 && r[k][0] == x
  {
    [[x, a, b, c], [x, a, c, b], [x, b, a, c], [x, b, c, a], [x, c, a, b], [x, c, b, a]]
  }

  lemma StartingWith<T>(x: T, a: T, b: T, c: T)
    ensures Prepend(x, Permutations([a, b, c])) == FromFirst(x, a, b, c)
  {
    PermutationsOfThree(a, b, c);
    assert [x] + [a, b, c] == [x, a, b, c] && [x] + [a, c, b] == [x, a, c, b];
    assert [x] + [b, a, c] == [x, b, a, c] && [x] + [b, c, a] == [x, b, c, a];
    assert [x] + [c, a, b] == [x, c, a, b] && [x] + [c, b, a] == [x, c, b, a];
  }

  /** The 24 orderings of four elements, in itertools.permutations order. */
  lemma PermutationsOfFour<T>(a: T, b: T, c: T, d: T)
    ensures Permutations([a, b, c, d])
            == FromFirst(a, b, c, d) + FromFirst(b, a, c, d) + FromFirst(c, a, b, d) + FromFirst(d, a, b, c)
  {
    var xs := [a, b, c, d];
    assert Without(xs, 0) == [b, c, d];
    assert Without(xs, 1) == [a, c, d];
    assert Without(xs, 2) == [a, b, d];
    assert Without(xs, 3) == [a, b, c];
    StartingWith(a, b, c, d);
    StartingWith(b, a, c, d);
    StartingWith(c, a, b, d);
    StartingWith(d, a, b, c);
    ChooseFrom(xs, 3, FromFirst(d, a, b, c), []);
    ChooseFrom(xs, 2, FromFirst(c, a, b, d), FromFirst(d, a, b, c));
    ChooseFrom(xs, 1, FromFirst(b, a, c, d), FromFirst(c, a, b, d) + FromFirst(d, a, b, c));
    ChooseFrom(xs, 0, FromFirst(a, b, c, d), FromFirst(b, a, c, d) + (FromFirst(c, a, b, d) + FromFirst(d, a, b, c)));
  }

  /** One step of `Choose`, with both parts already known. */
  lemma ChooseFrom<T>(xs: seq<T>, i: nat, first: seq<seq<T>>, later: seq<seq<T>>)
    requires i < |xs|
    requires Prepend(xs[i], Permutations(Without(xs, i))) == first
    requires Choose(xs, i + 1) == later
    ensures Choose(xs, i) == first + later
  {
  }
}
